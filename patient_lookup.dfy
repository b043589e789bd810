/**
 * Patient identity reconciliation: name, age and gender gathered from the
 * appointments, users and walk-in tables. There are two versions:
 * `patientDataAPI.fetchPatientInfo` (src/lib/newApi.js) and the form's own
 * look-up (`fetchPatientData` in src/components/TestResultEntry.jsx). Each
 * table's answer is a parameter: `None` stands for no row or a failed
 * query. A query that throws is skipped by `fetchPatientInfo`, whose steps
 * each catch their own exception, so there it is `None` too; in
 * `fetchPatientData` one handler wraps every step, so a throw ends the
 * whole look-up, and the tables that throw are a parameter. A missing or
 * null name or gender is "", and a missing age is `None`. An age of 0 is
 * kept but counts as missing wherever the code tests it.
 */
module PatientLookup {
  import opened Wrappers

  /** A calendar date; `month` is 0-based, as `Date.prototype.getMonth` returns it. */
  datatype Date = Date(year: int, month: int, day: int)

  /** d1 is strictly earlier than d2 in the calendar. */
  predicate Before(d1: Date, d2: Date) {
    d1.year < d2.year ||
    (d1.year == d2.year && (d1.month < d2.month || (d1.month == d2.month && d1.day < d2.day)))
  }

  /** `calculateAge(dob)`: whole years from dob to today; null without a date of birth. */
  function CalculateAge(dob: Option<Date>, today: Date): (age: Option<int>)
    ensures age.Some? <==> dob.Some?
    ensures dob.Some? ==> age.value == today.year - dob.value.year ||
                          age.value == today.year - dob.value.year - 1
  {
    match dob
    case None => None
    case Some(birth) =>
      var age := today.year - birth.year;
      var monthDiff := today.month - birth.month;
      if monthDiff < 0 || (monthDiff == 0 && today.day < birth.day) then Some(age - 1) else Some(age)
  }

  /** The date n years after d. */
  function YearsLater(d: Date, n: int): Date {
    Date(d.year + n, d.month, d.day)
  }

  /**
   * The age is the number of birthdays already reached: the a-th birthday
   * is not after today, and the (a+1)-th is.
   */
  lemma AgeCountsBirthdays(birth: Date, today: Date)
    ensures var a := CalculateAge(Some(birth), today).value;
            !Before(today, YearsLater(birth, a)) && Before(today, YearsLater(birth, a + 1))
  {
  }

  /** On 15 January 2026, a birthday on 20 January 2000 is still to come (25); one on 10 January is past (26). */
  lemma AgeExamples()
    ensures CalculateAge(Some(Date(2000, 0, 20)), Date(2026, 0, 15)) == Some(25)
    ensures CalculateAge(Some(Date(2000, 0, 10)), Date(2026, 0, 15)) == Some(26)
    ensures CalculateAge(None, Date(2026, 0, 15)) == None
  {
  }

  /** An age the code treats as present: not null and not 0. */
  predicate AgeKnown(a: Option<int>) {
    a.Some? && a.value != 0
  }

  /** `a || b` on ages. */
  function OrAge(a: Option<int>, b: Option<int>): (r: Option<int>)
    ensures AgeKnown(a) ==> r == a
    ensures !AgeKnown(a) ==> r == b
  {
    if AgeKnown(a) then a else b
  }

  /** `a || b` on strings. */
  function OrText(a: string, b: string): (r: string)
    ensures a != [] ==> r == a
    ensures a == [] ==> r == b
  {
    if a != [] then a else b
  }

  datatype Source = Appointments | Users | WalkIn

  /** The newest appointment row, as the code reads it. */
  datatype AppointmentRow = AppointmentRow(patientName: string, age: Option<int>, gender: string)

  datatype UserRow = UserRow(name: string, age: Option<int>, gender: string, dateOfBirth: Option<Date>)

  datatype WalkInRow = WalkInRow(name: string, age: Option<int>, gender: string)

  // ---------------------------------------------------------------------
  // patientDataAPI.fetchPatientInfo (src/lib/newApi.js)
  // ---------------------------------------------------------------------

  /** How the appointments table is searched: by appointment id when one is given, else by MRNO. */
  datatype Query = AppointmentsById(appointmentId: string) | AppointmentsByMrno(mrno: string) | UsersByMrno(mrno: string)

  /** The appointments query: by appointment id when one is given, else by MRNO. */
  function AppointmentsQuery(mrno: string, appointmentId: string): Query {
    if appointmentId != [] then AppointmentsById(appointmentId) else AppointmentsByMrno(mrno)
  }

  datatype PatientInfo = PatientInfo(name: string, age: Option<int>, gender: string, source: Option<Source>)

  predicate AnyField(p: PatientInfo) {
    p.name != [] || AgeKnown(p.age) || p.gender != []
  }

  predicate Complete(p: PatientInfo) {
    p.name != [] && AgeKnown(p.age) && p.gender != []
  }

  /** The appointments step adopts a row only when it carries a patient name. */
  predicate AppointmentAdopted(mrno: string, appointmentId: string, appointment: Option<AppointmentRow>) {
    (appointmentId != [] || mrno != []) && appointment.Some? && appointment.value.patientName != []
  }

  /** What the appointments step records from an adopted row. */
  function FromAppointment(row: AppointmentRow): (p: PatientInfo)
    ensures p.name == row.patientName && p.source == Some(Appointments)
  {
    PatientInfo(row.patientName, OrAge(row.age, None), OrText(row.gender, []), Some(Appointments))
  }

  /** What the users step records when nothing was found before it. */
  function FromUser(row: UserRow): (p: PatientInfo)
    ensures p.name == row.name && p.age == row.age && p.gender == row.gender && p.source == Some(Users)
  {
    PatientInfo(OrText(row.name, []), OrAge(None, row.age), OrText(row.gender, []), Some(Users))
  }

  /**
   * `fetchPatientInfo(mrno, appointmentId)`: the appointments table first,
   * then the users table when an MRNO is given and no name was found; the
   * record, or null when neither supplied a name, an age or a gender.
   */
  method FetchPatientInfo(mrno: string, appointmentId: string,
                          appointment: Option<AppointmentRow>, user: Option<UserRow>)
    returns (r: Option<PatientInfo>, queries: seq<Query>)
    ensures AppointmentAdopted(mrno, appointmentId, appointment) ==>
              r == Some(FromAppointment(appointment.value))
    ensures !AppointmentAdopted(mrno, appointmentId, appointment) ==>
              r == if mrno != [] && user.Some? && AnyField(FromUser(user.value)) then Some(FromUser(user.value)) else None
    ensures r.Some? ==> AnyField(r.value)
    ensures queries ==
              (if appointmentId != [] || mrno != [] then [AppointmentsQuery(mrno, appointmentId)] else []) +
              (if mrno != [] && !AppointmentAdopted(mrno, appointmentId, appointment) then [UsersByMrno(mrno)] else [])
    ensures |queries| <= 2
    ensures (appointmentId != [] || mrno != []) <==> |queries| > 0
    ensures |queries| > 0 ==>
              queries[0] == AppointmentsQuery(mrno, appointmentId)
    ensures UsersByMrno(mrno) in queries <==> mrno != [] && !AppointmentAdopted(mrno, appointmentId, appointment)
  {
    var data := PatientInfo([], None, [], None);
    queries := [];
    if appointmentId != [] || mrno != [] {
      queries := [AppointmentsQuery(mrno, appointmentId)];
      if appointment.Some? && appointment.value.patientName != [] {
        var row := appointment.value;
        data := data.(name := row.patientName);
        data := data.(age := OrAge(row.age, data.age));
        data := data.(gender := OrText(row.gender, data.gender));
        data := data.(source := Some(Appointments));
        if Complete(data) {
          return Some(data), queries;
        }
      }
    }
    if mrno != [] && data.name == [] {
      queries := queries + [UsersByMrno(mrno)];
      if user.Some? {
        var row := user.value;
        data := data.(name := OrText(data.name, OrText(row.name, [])));
        data := data.(age := OrAge(data.age, row.age));
        data := data.(gender := OrText(data.gender, OrText(row.gender, [])));
        data := data.(source := if data.source.Some? then data.source else Some(Users));
        if Complete(data) {
          return Some(data), queries;
        }
      }
    }
    if AnyField(data) {
      r := Some(data);
    } else {
      r := None;
    }
  }

  /**
   * The appointments query selects only the name, so the row never brings an
   * age or a gender. Once it brings a name, the users table is not asked
   * whatever it holds, and the record comes back with the name alone.
   */
  method AppointmentNameBlocksUsers(mrno: string, appointmentId: string, name: string, user: Option<UserRow>)
    returns (r: Option<PatientInfo>, queries: seq<Query>)
    requires name != [] && (appointmentId != [] || mrno != [])
    ensures r == Some(PatientInfo(name, None, [], Some(Appointments)))
    ensures queries == [AppointmentsQuery(mrno, appointmentId)]
  {
    r, queries := FetchPatientInfo(mrno, appointmentId, Some(AppointmentRow(name, None, [])), user);
  }

  // ---------------------------------------------------------------------
  // fetchPatientData (src/components/TestResultEntry.jsx)
  // ---------------------------------------------------------------------

  /** The patient fields of the form. */
  datatype PatientFields = PatientFields(name: string, age: Option<int>, gender: string)

  /** The name the look-up finds before the walk-in table: appointments first, then users. */
  function NameBeforeWalkIn(mrno: string, appointmentName: Option<string>, user: Option<UserRow>): string {
    var fromAppointment := if appointmentName.Some? then appointmentName.value else [];
    if fromAppointment != [] then fromAppointment
    else if mrno != [] && user.Some? then user.value.name
    else []
  }

  /** The age the look-up finds before the walk-in table: the users row's age, else its computed age. */
  function AgeBeforeWalkIn(mrno: string, user: Option<UserRow>, today: Date): Option<int> {
    if mrno != [] && user.Some? then OrAge(user.value.age, CalculateAge(user.value.dateOfBirth, today)) else None
  }

  /** The gender the look-up finds before the walk-in table: the users row's. */
  function GenderBeforeWalkIn(mrno: string, user: Option<UserRow>): string {
    if mrno != [] && user.Some? then user.value.gender else []
  }

  /** No step of the look-up so far threw. */
  predicate NoneThrew(consulted: seq<Source>, threw: set<Source>) {
    forall k :: 0 <= k < |consulted| ==> consulted[k] !in threw
  }

  /**
   * The form's look-up: appointments, then users (when there is an MRNO),
   * then walk-in patients (when there is an MRNO and still no name); the
   * form's name, age and gender are then filled with what was found,
   * keeping a field whenever the found value is empty. A query of a table
   * in `threw` throws: the look-up stops there and the form is unchanged.
   */
  method FetchPatientData(mrno: string, appointmentId: string, prev: PatientFields,
                          appointmentName: Option<string>, user: Option<UserRow>,
                          walkIn: Option<WalkInRow>, today: Date, threw: set<Source>)
    returns (next: PatientFields, consulted: seq<Source>)
    ensures mrno == [] && appointmentId == [] ==> next == prev && consulted == []
    ensures (mrno != [] || appointmentId != []) ==> |consulted| > 0 && consulted[0] == Appointments
    ensures Users in consulted <==> mrno != [] && Appointments !in threw
    ensures WalkIn in consulted <==>
              mrno != [] && Appointments !in threw && Users !in threw && NameBeforeWalkIn(mrno, appointmentName, user) == []
    ensures consulted == [] || NoneThrew(consulted[..|consulted| - 1], threw)
    ensures !NoneThrew(consulted, threw) ==> next == prev
    ensures (mrno != [] || appointmentId != []) && NoneThrew(consulted, threw) ==>
              next.name == OrText(NameBeforeWalkIn(mrno, appointmentName, user),
                             OrText(if WalkIn in consulted && walkIn.Some? then walkIn.value.name else [], prev.name))
    ensures (mrno != [] || appointmentId != []) && NoneThrew(consulted, threw) ==>
              next.age == OrAge(OrAge(AgeBeforeWalkIn(mrno, user, today),
                                      if WalkIn in consulted && walkIn.Some? then walkIn.value.age else None),
                                prev.age)
    ensures (mrno != [] || appointmentId != []) && NoneThrew(consulted, threw) ==>
              next.gender == OrText(OrText(GenderBeforeWalkIn(mrno, user),
                                           if WalkIn in consulted && walkIn.Some? then walkIn.value.gender else []),
                                    prev.gender)
    ensures NoneThrew(consulted, threw) && mrno != [] && user.Some? && AgeKnown(user.value.age) ==>
              next.age == user.value.age
    ensures (NoneThrew(consulted, threw) && mrno != [] && user.Some? && !AgeKnown(user.value.age) &&
             AgeKnown(CalculateAge(user.value.dateOfBirth, today))) ==>
              next.age == CalculateAge(user.value.dateOfBirth, today)
    ensures NoneThrew(consulted, threw) && mrno != [] && user.Some? && user.value.gender != [] ==>
              next.gender == user.value.gender
    ensures prev.name != [] ==> next.name != []
    ensures AgeKnown(prev.age) ==> AgeKnown(next.age)
    ensures prev.gender != [] ==> next.gender != []
  {
    if mrno == [] && appointmentId == [] {
      return prev, [];
    }
    var foundName: string := [];
    var foundAge: Option<int> := None;
    var foundGender: string := [];
    consulted := [Appointments];
    if Appointments in threw {
      return prev, consulted;
    }
    if appointmentName.Some? && appointmentName.value != [] {
      foundName := appointmentName.value;
    }
    if mrno != [] {
      consulted := consulted + [Users];
      if Users in threw {
        return prev, consulted;
      }
      if user.Some? {
        var row := user.value;
        foundName := OrText(foundName, OrText(row.name, []));
        foundAge := OrAge(row.age, CalculateAge(row.dateOfBirth, today));
        foundGender := OrText(row.gender, []);
      }
    }
    if foundName == [] && mrno != [] {
      consulted := consulted + [WalkIn];
      if WalkIn in threw {
        return prev, consulted;
      }
      if walkIn.Some? {
        var row := walkIn.value;
        foundName := row.name;
        foundAge := OrAge(foundAge, row.age);
        foundGender := OrText(foundGender, row.gender);
      }
    }
    next := PatientFields(OrText(foundName, prev.name), OrAge(foundAge, prev.age), OrText(foundGender, prev.gender));
  }
}
