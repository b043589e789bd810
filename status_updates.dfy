/**
 * The record builders of src/lib/api.js for samples, test results and
 * reports: the defaults an insert supplies (`createSample`,
 * `createTestResult`, `createReport`), the status updates that stamp a
 * date when the status reaches a given stage (`updateStatus`,
 * `updateResultStatus`, `updateReportStatus`, `publishReport`), and the
 * per-status counts of `samplesAPI.getStats`. The clock is the parameter
 * `now`.
 */
module StatusUpdates {
  import opened Wrappers
  import opened JsValue
  import Lists

  // ---------------------------------------------------------------------
  // Insert defaults
  // ---------------------------------------------------------------------

  /** `{...data, k: data.k || d}` for every default k. */
  function WithDefaults(data: Row, defaults: Row): (r: Row)
    ensures r.Keys == data.Keys + defaults.Keys
    ensures forall k :: k in defaults ==> r[k] == if Truthy(Get(data, k)) then data[k] else defaults[k]
    ensures forall k :: k in data && k !in defaults ==> r[k] == data[k]
  {
    map k | k in data.Keys + defaults.Keys ::
      if k in defaults && !Truthy(Get(data, k)) then defaults[k] else data[k]
  }

  /** With truthy defaults, applying them a second time changes nothing. */
  lemma DefaultsIdempotent(data: Row, defaults: Row)
    requires forall k :: k in defaults ==> Truthy(defaults[k])
    ensures WithDefaults(WithDefaults(data, defaults), defaults) == WithDefaults(data, defaults)
  {
    var once := WithDefaults(data, defaults);
    var twice := WithDefaults(once, defaults);
    forall k | k in twice ensures twice[k] == once[k] {
      if k in defaults {
        assert Truthy(once[k]);
      }
    }
  }

  /** `createSample`: collection date now, status 'collected' and priority 'normal' unless given; every other column kept. */
  function SampleInsert(sampleData: Row, now: string): (r: Row)
    ensures r.Keys == sampleData.Keys + {"collection_date", "status", "priority"}
    ensures r["collection_date"] == if Truthy(Get(sampleData, "collection_date")) then sampleData["collection_date"] else Str(now)
    ensures r["status"] == if Truthy(Get(sampleData, "status")) then sampleData["status"] else Str("collected")
    ensures r["priority"] == if Truthy(Get(sampleData, "priority")) then sampleData["priority"] else Str("normal")
    ensures Truthy(r["status"]) && Truthy(r["priority"])
    ensures forall k :: k in sampleData && k !in {"collection_date", "status", "priority"} ==> r[k] == sampleData[k]
  {
    WithDefaults(sampleData, map["collection_date" := Str(now), "status" := Str("collected"), "priority" := Str("normal")])
  }

  /** `createTestResult`: result status 'pending' and tested date now unless given; every other column kept. */
  function TestResultInsert(resultData: Row, now: string): (r: Row)
    ensures r.Keys == resultData.Keys + {"result_status", "tested_date"}
    ensures r["result_status"] == if Truthy(Get(resultData, "result_status")) then resultData["result_status"] else Str("pending")
    ensures r["tested_date"] == if Truthy(Get(resultData, "tested_date")) then resultData["tested_date"] else Str(now)
    ensures Truthy(r["result_status"])
    ensures forall k :: k in resultData && k !in {"result_status", "tested_date"} ==> r[k] == resultData[k]
  {
    WithDefaults(resultData, map["result_status" := Str("pending"), "tested_date" := Str(now)])
  }

  /** `createReport`: status 'draft' and report date now unless given; every other column kept. */
  function ReportInsert(reportData: Row, now: string): (r: Row)
    ensures r.Keys == reportData.Keys + {"status", "report_date"}
    ensures r["status"] == if Truthy(Get(reportData, "status")) then reportData["status"] else Str("draft")
    ensures r["report_date"] == if Truthy(Get(reportData, "report_date")) then reportData["report_date"] else Str(now)
    ensures Truthy(r["status"])
    ensures forall k :: k in reportData && k !in {"status", "report_date"} ==> r[k] == reportData[k]
  {
    WithDefaults(reportData, map["status" := Str("draft"), "report_date" := Str(now)])
  }

  // ---------------------------------------------------------------------
  // Status updates
  // ---------------------------------------------------------------------

  /** `{statusKey: status, ...additionalData}`: the extra data wins over the status. */
  function BaseUpdate(statusKey: string, status: string, additionalData: Row): (u: Row)
    ensures u.Keys == additionalData.Keys + {statusKey}
    ensures statusKey !in additionalData ==> u[statusKey] == Str(status)
    ensures forall k :: k in additionalData ==> u[k] == additionalData[k]
  {
    map[statusKey := Str(status)] + additionalData
  }

  /** The date column each status stamps in `samplesAPI.updateStatus`. */
  const SampleStamps: map<string, string> :=
    map["received" := "received_date", "processing" := "processing_started_at", "completed" := "completed_at"]

  /** The date column each status stamps in `testResultsAPI.updateResultStatus`. */
  const ResultStamps: map<string, string> :=
    map["completed" := "tested_date", "verified" := "verified_date", "approved" := "approved_date"]

  /** The date column each status stamps in `reportsAPI.updateReportStatus`. */
  const ReportStamps: map<string, string> := map["reviewed" := "verified_date", "approved" := "approved_date"]

  /** The column the status stamps, if any. */
  function StampKey(status: string, stamps: map<string, string>): Option<string> {
    if status in stamps then Some(stamps[status]) else None
  }

  /**
   * The update with the stamped column set to now, unless the additional
   * data already holds a truthy value there; nothing else is added.
   */
  function Stamped(base: Row, additionalData: Row, stamp: Option<string>, now: string): (u: Row)
    ensures stamp.None? || Truthy(Get(additionalData, stamp.value)) ==> u == base
    ensures stamp.Some? && !Truthy(Get(additionalData, stamp.value)) ==> u == base[stamp.value := Str(now)]
  {
    match stamp
    case None => base
    case Some(k) => if Truthy(Get(additionalData, k)) then base else base[k := Str(now)]
  }

  /**
   * `samplesAPI.updateStatus`: the base update, with received_date,
   * processing_started_at or completed_at set to now for the matching status
   * unless the update already holds a truthy value for it.
   */
  method SampleStatusUpdate(status: string, additionalData: Row, now: string) returns (updates: Row)
    ensures "status" !in additionalData ==> Get(updates, "status") == Str(status)
    ensures status == "received" && !Truthy(Get(additionalData, "received_date")) ==> Get(updates, "received_date") == Str(now)
    ensures (status == "processing" && !Truthy(Get(additionalData, "processing_started_at"))) ==>
              Get(updates, "processing_started_at") == Str(now)
    ensures status == "completed" && !Truthy(Get(additionalData, "completed_at")) ==> Get(updates, "completed_at") == Str(now)
    ensures forall k :: k in additionalData && Truthy(additionalData[k]) ==> Get(updates, k) == additionalData[k]
    ensures updates == Stamped(BaseUpdate("status", status, additionalData), additionalData, StampKey(status, SampleStamps), now)
  {
    updates := BaseUpdate("status", status, additionalData);
    if status == "received" && !Truthy(Get(updates, "received_date")) {
      updates := updates["received_date" := Str(now)];
    } else if status == "processing" && !Truthy(Get(updates, "processing_started_at")) {
      updates := updates["processing_started_at" := Str(now)];
    } else if status == "completed" && !Truthy(Get(updates, "completed_at")) {
      updates := updates["completed_at" := Str(now)];
    }
  }

  /** `testResultsAPI.updateResultStatus`: the status goes to `result_status`; completed, verified and approved stamp their dates. */
  method ResultStatusUpdate(status: string, additionalData: Row, now: string) returns (updates: Row)
    ensures "result_status" !in additionalData ==> Get(updates, "result_status") == Str(status)
    ensures status == "completed" && !Truthy(Get(additionalData, "tested_date")) ==> Get(updates, "tested_date") == Str(now)
    ensures status == "verified" && !Truthy(Get(additionalData, "verified_date")) ==> Get(updates, "verified_date") == Str(now)
    ensures status == "approved" && !Truthy(Get(additionalData, "approved_date")) ==> Get(updates, "approved_date") == Str(now)
    ensures forall k :: k in additionalData && Truthy(additionalData[k]) ==> Get(updates, k) == additionalData[k]
    ensures updates == Stamped(BaseUpdate("result_status", status, additionalData), additionalData, StampKey(status, ResultStamps), now)
  {
    updates := BaseUpdate("result_status", status, additionalData);
    if status == "completed" && !Truthy(Get(updates, "tested_date")) {
      updates := updates["tested_date" := Str(now)];
    } else if status == "verified" && !Truthy(Get(updates, "verified_date")) {
      updates := updates["verified_date" := Str(now)];
    } else if status == "approved" && !Truthy(Get(updates, "approved_date")) {
      updates := updates["approved_date" := Str(now)];
    }
  }

  /** `reportsAPI.updateReportStatus`: reviewed stamps verified_date, approved stamps approved_date. */
  method ReportStatusUpdate(status: string, additionalData: Row, now: string) returns (updates: Row)
    ensures "status" !in additionalData ==> Get(updates, "status") == Str(status)
    ensures status == "reviewed" && !Truthy(Get(additionalData, "verified_date")) ==> Get(updates, "verified_date") == Str(now)
    ensures status == "approved" && !Truthy(Get(additionalData, "approved_date")) ==> Get(updates, "approved_date") == Str(now)
    ensures forall k :: k in additionalData && Truthy(additionalData[k]) ==> Get(updates, k) == additionalData[k]
    ensures updates == Stamped(BaseUpdate("status", status, additionalData), additionalData, StampKey(status, ReportStamps), now)
  {
    updates := BaseUpdate("status", status, additionalData);
    if status == "reviewed" && !Truthy(Get(updates, "verified_date")) {
      updates := updates["verified_date" := Str(now)];
    } else if status == "approved" && !Truthy(Get(updates, "approved_date")) {
      updates := updates["approved_date" := Str(now)];
    }
  }

  /** `publishReport`: status 'published', the publisher as approver, approved now. */
  method PublishReport(publishedBy: Value, now: string) returns (updates: Row)
    ensures updates == map["status" := Str("published"), "approved_by" := publishedBy, "approved_date" := Str(now)]
  {
    updates := ReportStatusUpdate("published", map["approved_by" := publishedBy, "approved_date" := Str(now)], now);
  }

  // ---------------------------------------------------------------------
  // samplesAPI.getStats
  // ---------------------------------------------------------------------

  /** `r => r[key] === v`. */
  function Where(key: string, v: Value): Row -> bool {
    (r: Row) => Get(r, key) == v
  }

  datatype SampleStats = SampleStats(
    totalSamples: nat, collected: nat, inTransit: nat, received: nat, processing: nat,
    completed: nat, rejected: nat, urgent: nat, stat: nat)

  /**
   * `samplesAPI.getStats`: the number of samples with each exact status and
   * each priority. `samples` is the answer of the sample query, `None` when
   * it failed; the failure is caught and every count is 0.
   */
  function GetSampleStats(samples: Option<seq<Row>>): (st: SampleStats)
    ensures samples.None? ==> st == SampleStats(0, 0, 0, 0, 0, 0, 0, 0, 0)
    ensures samples.Some? ==> st.totalSamples == |samples.value|
    ensures samples.Some? ==> st.collected == Lists.Count(samples.value, Where("status", Str("collected")))
    ensures samples.Some? ==> st.inTransit == Lists.Count(samples.value, Where("status", Str("in-transit")))
    ensures samples.Some? ==> st.received == Lists.Count(samples.value, Where("status", Str("received")))
    ensures samples.Some? ==> st.processing == Lists.Count(samples.value, Where("status", Str("processing")))
    ensures samples.Some? ==> st.completed == Lists.Count(samples.value, Where("status", Str("completed")))
    ensures samples.Some? ==> st.rejected == Lists.Count(samples.value, Where("status", Str("rejected")))
    ensures samples.Some? ==> st.urgent == Lists.Count(samples.value, Where("priority", Str("urgent")))
    ensures samples.Some? ==> st.stat == Lists.Count(samples.value, Where("priority", Str("stat")))
    ensures st.urgent + st.stat <= st.totalSamples
  {
    match samples
    case None => SampleStats(0, 0, 0, 0, 0, 0, 0, 0, 0)
    case Some(rows) =>
      var urgent := Lists.Count(rows, Where("priority", Str("urgent")));
      var stat := Lists.Count(rows, Where("priority", Str("stat")));
      PairBounded(rows, "priority", Str("urgent"), Str("stat"));
      SampleStats(|rows|,
                  Lists.Count(rows, Where("status", Str("collected"))),
                  Lists.Count(rows, Where("status", Str("in-transit"))),
                  Lists.Count(rows, Where("status", Str("received"))),
                  Lists.Count(rows, Where("status", Str("processing"))),
                  Lists.Count(rows, Where("status", Str("completed"))),
                  Lists.Count(rows, Where("status", Str("rejected"))),
                  urgent, stat)
  }

  /** Two different values of one column are held by at most all rows together. */
  lemma PairBounded(rows: seq<Row>, key: string, a: Value, b: Value)
    requires a != b
    ensures Lists.Count(rows, Where(key, a)) + Lists.Count(rows, Where(key, b)) <= |rows|
  {
    Lists.CountDisjoint(rows, Where(key, a), Where(key, b));
  }

  /** Rows holding six different values of one column number at most all rows. */
  lemma {:induction false} SixValuesBounded(rows: seq<Row>, key: string, a: Value, b: Value, c: Value, d: Value, e: Value, f: Value)
    requires a != b && a != c && a != d && a != e && a != f
    requires b != c && b != d && b != e && b != f
    requires c != d && c != e && c != f
    requires d != e && d != f && e != f
    ensures Lists.Count(rows, Where(key, a)) + Lists.Count(rows, Where(key, b)) + Lists.Count(rows, Where(key, c)) +
            Lists.Count(rows, Where(key, d)) + Lists.Count(rows, Where(key, e)) + Lists.Count(rows, Where(key, f)) <= |rows|
  {
    if rows != [] {
      SixValuesBounded(rows[1..], key, a, b, c, d, e, f);
    }
  }

  /** The six status counts together never exceed the number of samples. */
  lemma SampleStatusCountsBounded(samples: Option<seq<Row>>)
    ensures var st := GetSampleStats(samples);
            st.collected + st.inTransit + st.received + st.processing + st.completed + st.rejected <= st.totalSamples
  {
    if samples.None? {
      return;
    }
    var a, b, c := Str("collected"), Str("in-transit"), Str("received");
    var d, e, f := Str("processing"), Str("completed"), Str("rejected");
    assert a.s[2] == 'l' && b.s[2] == '-' && c.s[2] == 'c' && d.s[2] == 'o' && e.s[2] == 'm' && f.s[2] == 'j';
    SixValuesBounded(samples.value, "status", a, b, c, d, e, f);
  }
}
