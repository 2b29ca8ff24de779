/**
 * database.ts: verifyPreservation and resumedNativeStops, with the retention rules of database-retention.ts. A row
 * is a map from columns to cells and stands for its own digest.
 */
module Preservation {
  import opened Prelude

  const MAXIMUM_ROWS := 100000
  const DAY_MS := 86400000
  const STOPS := "fleet_native_stop"

  datatype Cell = Null | Number(n: int) | Text(s: string)

  type Row = map<string, Cell>

  datatype Run = Run(id: Cell, agent: Cell, fleet: Cell, startedAt: int)

  /** keys holds the primary-key columns of each relation. */
  datatype Database = Database(tables: map<string, seq<Row>>, keys: map<string, seq<string>>, runs: seq<Run>)

  function Get(row: Row, column: string): Cell {
    if column in row then row[column] else Null
  }

  function Rows(d: Database, name: string): seq<Row> {
    if name in d.tables then d.tables[name] else []
  }

  function Keys(d: Database, name: string): seq<string> {
    if name in d.keys then d.keys[name] else []
  }

  /** recordIdentity. */
  function IdentityOf(row: Row, keys: seq<string>): seq<Cell> {
    seq(|keys|, i requires 0 <= i < |keys| => Get(row, keys[i]))
  }

  predicate Present(row: Row, actual: seq<Row>, keys: seq<string>) {
    exists i :: 0 <= i < |actual| && IdentityOf(actual[i], keys) == IdentityOf(row, keys)
  }

  predicate SameKeys(a: Row, b: Row, keys: seq<string>) {
    forall k :: 0 <= k < |keys| ==> Get(a, keys[k]) == Get(b, keys[k])
  }

  /** A row counts as present when some row has the same cells in all key columns. */
  lemma PresentExactly(row: Row, actual: seq<Row>, keys: seq<string>)
    ensures Present(row, actual, keys) <==> exists i :: 0 <= i < |actual| && SameKeys(actual[i], row, keys)
  {
    forall i | 0 <= i < |actual| ensures IdentityOf(actual[i], keys) == IdentityOf(row, keys) <==> SameKeys(actual[i], row, keys) {
      IdentitiesAgree(actual[i], row, keys);
    }
    hide SameKeys, IdentityOf;
  }

  lemma IdentitiesAgree(a: Row, b: Row, keys: seq<string>)
    ensures IdentityOf(a, keys) == IdentityOf(b, keys) <==> SameKeys(a, b, keys)
  {
    hide Get;
    if IdentityOf(a, keys) == IdentityOf(b, keys) {
      forall k | 0 <= k < |keys| ensures Get(a, keys[k]) == Get(b, keys[k]) {
        assert IdentityOf(a, keys)[k] == IdentityOf(b, keys)[k];
      }
    }
  }

  // ---- Retention

  datatype Retention = Retention(days: int, at: int)

  /** cutoff is None when no retention was claimed; latest holds each agent's last stop. */
  datatype Proof = Proof(cutoff: Option<int>, requests: set<Cell>, latest: map<Cell, int>)

  predicate Before(c: Cell, cutoff: Option<int>) {
    c.Number? && cutoff.Some? && c.n < cutoff.value
  }

  predicate Prefixed(table: string, prefix: string) {
    prefix <= table
  }

  /** Which rows of the original may be missing from the current database. */
  predicate Eligible(p: Proof, table: string, row: Row) {
    if table == "audit_event" then Before(Get(row, "created_at"), p.cutoff)
    else if table == "enrollment_request" then Get(row, "id") in p.requests
    else if Prefixed(table, "enrollment_item") || table == "enrollment_controller_metadata" then
      (if Get(row, "request_id").Null? then Get(row, "enrollment_id") else Get(row, "request_id")) in p.requests
    else if table == STOPS then
      Before(Get(row, "native_stopped_at"), p.cutoff) && Get(row, "sequence").Number?
      && Get(row, "sequence").n < (if Get(row, "agent_id") in p.latest then p.latest[Get(row, "agent_id")] else 0)
    else if table == "member_invitation" then
      Before(Get(row, "expires_at"), p.cutoff) && (!Get(row, "consumed_by_member_id").Null? || Get(row, "claim_backend_user_id").Null?)
    else false
  }

  /** An enrollment request that ended before the cutoff and whose name is no longer held. */
  predicate Ended(row: Row, names: seq<Row>, cutoff: Option<int>) {
    && (Get(row, "status") == Text("expired") || Get(row, "status") == Text("rejected"))
    && Before(if Get(row, "decided_at").Null? then Get(row, "expires_at") else Get(row, "decided_at"), cutoff)
    && forall i :: 0 <= i < |names| ==> Get(names[i], "request_id").Null? || Get(names[i], "request_id") != Get(row, "id")
  }

  /** The greatest sequence of each agent's stops. */
  function Latest(stops: seq<Row>): map<Cell, int> {
    if stops == [] then map[]
    else
      var before, row := Latest(stops[..|stops| - 1]), stops[|stops| - 1];
      var agent, sequence := Get(row, "agent_id"), Get(row, "sequence");
      if sequence.Number? && (agent !in before || before[agent] < sequence.n) then before[agent := sequence.n] else before
  }

  function ProofOf(d: Database, retention: Option<Retention>): Proof {
    var cutoff := if retention.Some? then Some(retention.value.at - retention.value.days * DAY_MS) else None;
    Proof(cutoff, set i | 0 <= i < |Rows(d, "enrollment_request")| && Ended(Rows(d, "enrollment_request")[i], Rows(d, "agent_name"), cutoff)
                    :: Get(Rows(d, "enrollment_request")[i], "id"),
          Latest(Rows(d, STOPS)))
  }

  /** Without a claimed retention nothing may be missing. */
  lemma NothingExpires(d: Database, table: string, row: Row)
    requires table == "enrollment_request" || Prefixed(table, "enrollment_item") || table == "enrollment_controller_metadata" ||
             table == "audit_event" || table == STOPS || table == "member_invitation"
    ensures !Eligible(ProofOf(d, None), table, row)
  {
    assert ProofOf(d, None).requests == {};
  }

  lemma {:induction false} LatestBounds(stops: seq<Row>, i: nat)
    requires i < |stops| && Get(stops[i], "sequence").Number?
    ensures Get(stops[i], "agent_id") in Latest(stops) && Latest(stops)[Get(stops[i], "agent_id")] >= Get(stops[i], "sequence").n
  {
    if i < |stops| - 1 {
      LatestBounds(stops[..|stops| - 1], i);
    }
  }

  predicate LaterStop(a: Row, b: Row) {
    Get(a, "agent_id") == Get(b, "agent_id") && Get(a, "sequence").Number? && Get(b, "sequence").Number?
    && Get(a, "sequence").n < Get(b, "sequence").n
  }

  /** The last stop of an agent never expires, whatever the cutoff. */
  lemma LastStopStays(d: Database, retention: Option<Retention>, i: nat)
    requires i < |Rows(d, STOPS)| && Get(Rows(d, STOPS)[i], "sequence").Number?
    requires forall j :: 0 <= j < |Rows(d, STOPS)| ==> !LaterStop(Rows(d, STOPS)[i], Rows(d, STOPS)[j])
    ensures !Eligible(ProofOf(d, retention), STOPS, Rows(d, STOPS)[i])
  {
    var stops := Rows(d, STOPS);
    var agent := Get(stops[i], "agent_id");
    LatestBounds(stops, i);
    LatestReached(stops, agent);
    var j :| 0 <= j < |stops| && Get(stops[j], "agent_id") == agent && Get(stops[j], "sequence") == Number(Latest(stops)[agent]);
    assert !LaterStop(stops[i], stops[j]);
    assert ProofOf(d, retention).latest[agent] == Latest(stops)[agent] == Get(stops[i], "sequence").n;
    assert STOPS[0] == 'f' && "audit_event"[0] == 'a' && "enrollment_request"[0] == 'e';
    assert "enrollment_item"[0] == 'e' && "enrollment_controller_metadata"[0] == 'e';
    hide Latest, Rows, Ended;
  }

  lemma {:induction false} LatestReached(stops: seq<Row>, agent: Cell)
    ensures agent in Latest(stops) ==>
              exists j :: 0 <= j < |stops| && Get(stops[j], "agent_id") == agent && Get(stops[j], "sequence") == Number(Latest(stops)[agent])
  {
    if stops != [] {
      var before := stops[..|stops| - 1];
      LatestReached(before, agent);
      assert Get(stops[|stops| - 1], "agent_id") == Get(stops[|stops| - 1], "agent_id");
      if agent in Latest(before) {
        var j :| 0 <= j < |before| && Get(before[j], "agent_id") == agent && Get(before[j], "sequence") == Number(Latest(before)[agent]);
        assert Get(stops[j], "agent_id") == agent && Get(stops[j], "sequence") == Number(Latest(before)[agent]);
      }
    }
  }

  // ---- What may be missing, from the original rows alone

  /** The cell holds a time more than the claimed number of days before the claimed time. */
  predicate Older(c: Cell, retention: Option<Retention>) {
    retention.Some? && c.Number? && c.n < retention.value.at - retention.value.days * 86400000
  }

  /** Some original request with this identity was turned down long enough ago, and holds no name. */
  predicate RequestGone(d: Database, retention: Option<Retention>, id: Cell) {
    exists i :: 0 <= i < |Rows(d, "enrollment_request")| &&
      var request := Rows(d, "enrollment_request")[i];
      && Get(request, "id") == id && Get(request, "status") in {Text("expired"), Text("rejected")}
      && (if Get(request, "decided_at") == Null then Older(Get(request, "expires_at"), retention) else Older(Get(request, "decided_at"), retention))
      && forall j :: 0 <= j < |Rows(d, "agent_name")| ==> Get(Rows(d, "agent_name")[j], "request_id") in {Null} || Get(Rows(d, "agent_name")[j], "request_id") != id
  }

  /** The same agent has a later stop. */
  predicate Superseded(d: Database, row: Row) {
    exists j :: 0 <= j < |Rows(d, "fleet_native_stop")| && LaterStop(row, Rows(d, "fleet_native_stop")[j])
  }

  lemma RequestsGone(d: Database, retention: Option<Retention>, id: Cell)
    ensures id in ProofOf(d, retention).requests <==> RequestGone(d, retention, id)
  {
    var p, requests := ProofOf(d, retention), Rows(d, "enrollment_request");
    assert forall c :: Before(c, p.cutoff) <==> Older(c, retention);
    hide Rows, Before, Older, Latest;
    if id in p.requests {
      var i :| 0 <= i < |requests| && Ended(requests[i], Rows(d, "agent_name"), p.cutoff) && Get(requests[i], "id") == id;
    }
  }

  lemma {:induction false} LatestMeans(d: Database, row: Row)
    requires Get(row, "sequence").Number? && exists i :: 0 <= i < |Rows(d, STOPS)| && SameStop(Rows(d, STOPS)[i], row)
    ensures var latest, agent := Latest(Rows(d, STOPS)), Get(row, "agent_id");
            agent in latest && (Get(row, "sequence").n < latest[agent] <==> Superseded(d, row))
  {
    var stops, agent := Rows(d, STOPS), Get(row, "agent_id");
    var i :| 0 <= i < |stops| && SameStop(stops[i], row);
    LatestBounds(stops, i);
    LatestReached(stops, agent);
    var k :| 0 <= k < |stops| && Get(stops[k], "agent_id") == agent && Get(stops[k], "sequence") == Number(Latest(stops)[agent]);
    if j :| 0 <= j < |stops| && LaterStop(row, stops[j]) {
      LatestBounds(stops, j);
    }
    hide Latest, Rows;
    if Get(row, "sequence").n < Latest(stops)[agent] {
      assert LaterStop(row, stops[k]);
    }
  }

  predicate SameStop(a: Row, b: Row) {
    Get(a, "agent_id") == Get(b, "agent_id") && Get(a, "sequence") == Get(b, "sequence")
  }

  /**
   * Of each kind of row only those may be missing that retention allows: audit events and invitations out of date,
   * what belongs to a request long turned down, and stops out of date that a later one of the agent supersedes.
   */
  lemma {:induction false} EligibleExactly(d: Database, retention: Option<Retention>, row: Row)
    ensures var p := ProofOf(d, retention);
            && (Eligible(p, "audit_event", row) <==> Older(Get(row, "created_at"), retention))
            && (Eligible(p, "enrollment_request", row) <==> RequestGone(d, retention, Get(row, "id")))
            && (Eligible(p, "enrollment_controller_metadata", row) <==>
                  RequestGone(d, retention, if Get(row, "request_id") == Null then Get(row, "enrollment_id") else Get(row, "request_id")))
            && (Eligible(p, "member_invitation", row) <==>
                  Older(Get(row, "expires_at"), retention) && (Get(row, "consumed_by_member_id") != Null || Get(row, "claim_backend_user_id") == Null))
            && ((exists i :: 0 <= i < |Rows(d, "fleet_native_stop")| && SameStop(Rows(d, "fleet_native_stop")[i], row)) ==>
                  (Eligible(p, "fleet_native_stop", row) <==> Older(Get(row, "native_stopped_at"), retention) && Superseded(d, row)))
  {
    var p := ProofOf(d, retention);
    assert forall c :: Before(c, p.cutoff) <==> Older(c, retention);
    RequestsGone(d, retention, Get(row, "id"));
    RequestsGone(d, retention, if Get(row, "request_id") == Null then Get(row, "enrollment_id") else Get(row, "request_id"));
    if Get(row, "sequence").Number? && exists i :: 0 <= i < |Rows(d, STOPS)| && SameStop(Rows(d, STOPS)[i], row) {
      LatestMeans(d, row);
    }
    EligibleTables(p, row);
    hide ProofOf, Eligible, RequestGone, Before, Older, Rows;
  }

  lemma EligibleTables(p: Proof, row: Row)
    ensures Eligible(p, "audit_event", row) <==> Before(Get(row, "created_at"), p.cutoff)
    ensures Eligible(p, "enrollment_request", row) <==> Get(row, "id") in p.requests
    ensures Eligible(p, "enrollment_controller_metadata", row) <==>
            (if Get(row, "request_id").Null? then Get(row, "enrollment_id") else Get(row, "request_id")) in p.requests
    ensures Eligible(p, "member_invitation", row) <==>
            Before(Get(row, "expires_at"), p.cutoff) && (!Get(row, "consumed_by_member_id").Null? || Get(row, "claim_backend_user_id").Null?)
    ensures Eligible(p, "fleet_native_stop", row) <==>
            Before(Get(row, "native_stopped_at"), p.cutoff) && Get(row, "sequence").Number?
            && Get(row, "sequence").n < (if Get(row, "agent_id") in p.latest then p.latest[Get(row, "agent_id")] else 0)
  {
    hide Before, Get;
    assert "audit_event"[0] == 'a' && "member_invitation"[0] == 'm' && "fleet_native_stop"[0] == 'f' && "enrollment_item"[0] == 'e';
    assert "enrollment_request"[11] == 'r' && "enrollment_controller_metadata"[11] == 'c' && "enrollment_item"[11] == 'i';
  }

  /** The items of a request, in whatever table that is named after them, go with it. */
  lemma {:induction false} ItemsEligible(d: Database, retention: Option<Retention>, suffix: string, row: Row)
    ensures Eligible(ProofOf(d, retention), "enrollment_item" + suffix, row) <==>
            RequestGone(d, retention, if Get(row, "request_id") == Null then Get(row, "enrollment_id") else Get(row, "request_id"))
  {
    var table := "enrollment_item" + suffix;
    RequestsGone(d, retention, if Get(row, "request_id") == Null then Get(row, "enrollment_id") else Get(row, "request_id"));
    assert table[0] == 'e' && "audit_event"[0] == 'a' && table[11] == 'i' && "enrollment_request"[11] == 'r';
    assert Prefixed(table, "enrollment_item");
    hide ProofOf, RequestGone, Before;
  }

  // ---- Native stops invalidated by a later run

  /** The last row of after for the same agent and receipt. */
  function Current(after: seq<Row>, row: Row): Option<Row> {
    if after == [] then None
    else
      var last := after[|after| - 1];
      if Get(last, "agent_id") == Get(row, "agent_id") && Get(last, "receipt_id") == Get(row, "receipt_id") then Some(last)
      else Current(after[..|after| - 1], row)
  }

  predicate Resumes(run: Run, row: Row, at: int) {
    && run.agent == Get(row, "agent_id") && run.fleet == Get(row, "fleet_id") && run.id != Get(row, "run_id")
    && Get(row, "native_stopped_at").Number? && Get(row, "native_stopped_at").n <= run.startedAt <= at
  }

  /** The only change a native stop may show: its first invalidation, explained by a run that started meanwhile. */
  predicate Invalidated(row: Row, changed: Row, runs: seq<Run>) {
    && Get(row, "invalidated_at").Null? && Get(changed, "invalidated_at").Number?
    && Get(row, "native_stopped_at").Number? && Get(changed, "invalidated_at").n >= Get(row, "native_stopped_at").n
    && row["invalidated_at" := Get(changed, "invalidated_at")] == changed
    && exists i :: 0 <= i < |runs| && Resumes(runs[i], row, Get(changed, "invalidated_at").n)
  }

  function Resumed(row: Row, after: seq<Row>, runs: seq<Run>): Row {
    var changed := Current(after, row);
    if changed.Some? && Invalidated(row, changed.value, runs) then changed.value else row
  }

  function AllResumed(before: seq<Row>, after: seq<Row>, runs: seq<Run>): seq<Row> {
    seq(|before|, i requires 0 <= i < |before| => Resumed(before[i], after, runs))
  }

  /** How many stops changed. */
  function Altered(before: seq<Row>, after: seq<Row>, runs: seq<Run>): nat {
    if before == [] then 0
    else
      var row := before[|before| - 1];
      Altered(before[..|before| - 1], after, runs) + if Resumed(row, after, runs) != row then 1 else 0
  }

  method ResumedNativeStops(before: seq<Row>, after: seq<Row>, runs: seq<Run>) returns (ok: bool, rows: seq<Row>, invalidated: nat)
    ensures ok <==> |runs| <= MAXIMUM_ROWS
    ensures ok ==> rows == AllResumed(before, after, runs) && invalidated == Altered(before, after, runs)
  {
    rows, invalidated, ok := [], 0, |runs| <= MAXIMUM_ROWS;
    if !ok {
      return;
    }
    hide Current, Invalidated, Resumed;
    for i := 0 to |before|
      invariant |rows| == i && forall j :: 0 <= j < i ==> rows[j] == Resumed(before[j], after, runs)
      invariant invalidated == Altered(before[..i], after, runs)
    {
      var row := before[i];
      ResumedDiffers(row, after, runs);
      assert before[..i + 1][..i] == before[..i];
      var changed := Current(after, row);
      if changed.Some? && Invalidated(row, changed.value, runs) {
        rows := rows + [changed.value];
        invalidated := invalidated + 1;
      } else {
        rows := rows + [row];
      }
    }
    assert before[..|before|] == before;
  }

  lemma ResumedDiffers(row: Row, after: seq<Row>, runs: seq<Run>)
    ensures if Current(after, row).Some? && Invalidated(row, Current(after, row).value, runs)
            then Resumed(row, after, runs) == Current(after, row).value != row else Resumed(row, after, runs) == row
  {
  }

  /** A row that is expected in another form differs from the original in its invalidation alone, and a run explains it. */
  lemma StopsChangeOnlySo(row: Row, after: seq<Row>, runs: seq<Run>, column: string)
    ensures column != "invalidated_at" ==> Get(Resumed(row, after, runs), column) == Get(row, column)
    ensures Resumed(row, after, runs) != row ==>
              var at := Get(Resumed(row, after, runs), "invalidated_at");
              && Get(row, "invalidated_at").Null? && at.Number?
              && exists i :: 0 <= i < |runs| && Resumes(runs[i], row, at.n)
  {
    hide Current, Resumes;
  }

  /** changed is the last row of after with the agent and receipt of row. */
  predicate IsCurrent(after: seq<Row>, row: Row, k: nat) {
    && k < |after| && Get(after[k], "agent_id") == Get(row, "agent_id") && Get(after[k], "receipt_id") == Get(row, "receipt_id")
    && forall i :: k < i < |after| ==> Get(after[i], "agent_id") != Get(row, "agent_id") || Get(after[i], "receipt_id") != Get(row, "receipt_id")
  }

  lemma {:induction false} CurrentMeans(after: seq<Row>, row: Row)
    ensures Current(after, row).None? ==> forall k: nat :: !IsCurrent(after, row, k)
    ensures Current(after, row).Some? ==> exists k: nat :: IsCurrent(after, row, k) && Current(after, row) == Some(after[k])
  {
    if after != [] {
      var init, last := after[..|after| - 1], after[|after| - 1];
      CurrentMeans(init, row);
      hide Get;
      if Get(last, "agent_id") == Get(row, "agent_id") && Get(last, "receipt_id") == Get(row, "receipt_id") {
        assert IsCurrent(after, row, |init|);
      } else if Current(init, row).Some? {
        var k: nat :| IsCurrent(init, row, k) && Current(init, row) == Some(init[k]);
        assert IsCurrent(after, row, k);
      } else {
        assert init + [last] == after;
        forall k: nat ensures IsCurrent(after, row, k) ==> IsCurrent(init, row, k) {
          CurrentEarlier(init, last, row, k);
        }
      }
    }
  }

  lemma CurrentEarlier(init: seq<Row>, last: Row, row: Row, k: nat)
    requires !(Get(last, "agent_id") == Get(row, "agent_id") && Get(last, "receipt_id") == Get(row, "receipt_id"))
    ensures IsCurrent(init + [last], row, k) ==> IsCurrent(init, row, k)
  {
    hide Get;
    if IsCurrent(init + [last], row, k) {
      forall i | k < i < |init| ensures Get(init[i], "agent_id") != Get(row, "agent_id") || Get(init[i], "receipt_id") != Get(row, "receipt_id") {
        assert (init + [last])[i] == init[i];
      }
    }
  }

  /** The invalidation of a stop is explained by another run of its agent and fleet that began between the stop and it. */
  predicate Explains(run: Run, row: Row, stopped: int, at: int) {
    && run.agent == Get(row, "agent_id") && run.fleet == Get(row, "fleet_id") && run.id != Get(row, "run_id")
    && stopped <= run.startedAt <= at
  }

  /**
   * A stop is expected in its changed form exactly when that is the original with a first invalidation, not before
   * the stop, that some run explains; otherwise as it was.
   */
  lemma {:induction false} StopsChangeExactly(row: Row, after: seq<Row>, runs: seq<Run>, changed: Row)
    ensures changed != row && Resumed(row, after, runs) == changed <==>
            && (exists k: nat :: IsCurrent(after, row, k) && after[k] == changed)
            && Get(row, "invalidated_at") == Null
            && exists stopped, at :: Get(row, "native_stopped_at") == Number(stopped) && changed == row["invalidated_at" := Number(at)]
                                     && stopped <= at && exists i :: 0 <= i < |runs| && Explains(runs[i], row, stopped, at)
    ensures Resumed(row, after, runs) == row || exists k: nat :: IsCurrent(after, row, k) && after[k] == Resumed(row, after, runs)
  {
    CurrentMeans(after, row);
    OneCurrent(after, row);
    hide Current, IsCurrent;
    var current := Current(after, row);
    if current.Some? {
      InvalidatedMeans(row, current.value, runs);
      hide Invalidated, Explains;
    }
  }

  lemma OneCurrent(after: seq<Row>, row: Row)
    ensures forall j: nat, k: nat :: IsCurrent(after, row, j) && IsCurrent(after, row, k) ==> j == k
  {
    hide Get;
  }

  lemma InvalidatedMeans(row: Row, changed: Row, runs: seq<Run>)
    ensures Invalidated(row, changed, runs) <==>
            && Get(row, "invalidated_at") == Null
            && exists stopped, at :: Get(row, "native_stopped_at") == Number(stopped) && changed == row["invalidated_at" := Number(at)]
                                     && stopped <= at && exists i :: 0 <= i < |runs| && Explains(runs[i], row, stopped, at)
    ensures Invalidated(row, changed, runs) ==> changed != row
  {
    var stopped, at := Get(row, "native_stopped_at"), Get(changed, "invalidated_at");
    if stopped.Number? && at.Number? {
      assert forall i :: 0 <= i < |runs| ==> (Resumes(runs[i], row, at.n) <==> Explains(runs[i], row, stopped.n, at.n));
    }
    hide Resumes, Explains;
  }

  // ---- One relation

  predicate Expires(row: Row, name: string, p: Proof, actual: seq<Row>, keys: seq<string>) {
    !Present(row, actual, keys) && Eligible(p, name, row)
  }

  /** The expected rows that may not be missing. */
  function Kept(expected: seq<Row>, name: string, p: Proof, actual: seq<Row>, keys: seq<string>): seq<Row> {
    if expected == [] then []
    else
      var before, last := Kept(expected[..|expected| - 1], name, p, actual, keys), expected[|expected| - 1];
      if Expires(last, name, p, actual, keys) then before else before + [last]
  }

  /** Exactly the rows that expire are left out, and each of those is absent and eligible. */
  lemma {:induction false} KeptExactly(expected: seq<Row>, name: string, p: Proof, actual: seq<Row>, keys: seq<string>, row: Row)
    ensures multiset(Kept(expected, name, p, actual, keys))[row] ==
            if !Present(row, actual, keys) && Eligible(p, name, row) then 0 else multiset(expected)[row]
  {
    if expected != [] {
      KeptExactly(expected[..|expected| - 1], name, p, actual, keys, row);
      assert expected == expected[..|expected| - 1] + [expected[|expected| - 1]];
      hide Eligible, Present;
    }
  }

  method Available(actual: seq<Row>) returns (available: map<Row, nat>)
    ensures forall row :: (if row in available then available[row] else 0) == multiset(actual)[row]
  {
    available := map[];
    for i := 0 to |actual|
      invariant forall row :: (if row in available then available[row] else 0) == multiset(actual[..i])[row]
    {
      assert actual[..i + 1] == actual[..i] + [actual[i]];
      available := available[actual[i] := (if actual[i] in available then available[actual[i]] else 0) + 1];
    }
    assert actual[..|actual|] == actual;
  }

  method Identities(actual: seq<Row>, keys: seq<string>) returns (identities: set<seq<Cell>>)
    ensures forall row :: IdentityOf(row, keys) in identities <==> Present(row, actual, keys)
  {
    hide IdentityOf;
    identities := set i | 0 <= i < |actual| :: IdentityOf(actual[i], keys);
  }

  /** Succeeds exactly when the rows that may not be missing form a sub-multiset of the current rows. */
  method VerifyRelation(name: string, expected: seq<Row>, actual: seq<Row>, keys: seq<string>, p: Proof) returns (ok: bool, expired: nat)
    ensures ok <==> multiset(Kept(expected, name, p, actual, keys)) <= multiset(actual)
    ensures expired + |Kept(expected, name, p, actual, keys)| == |expected|
  {
    var identities := Identities(actual, keys);
    var available := Available(actual);
    hide Eligible, IdentityOf, Present, Kept, Taken, Expires;
    ok, expired := true, 0;
    ghost var kept: seq<Row> := [];
    KeptStart(name, p, actual, keys, available);
    for i := 0 to |expected|
      invariant kept == Kept(expected[..i], name, p, actual, keys) && expired + |kept| == i
      invariant Taken(available, multiset(actual), multiset(kept))
      invariant ok <==> multiset(kept) <= multiset(actual)
    {
      var row := expected[i];
      KeptNext(expected, i, name, p, actual, keys);
      if IdentityOf(row, keys) !in identities && Eligible(p, name, row) {
        expired := expired + 1;
      } else {
        var count := if row in available then available[row] else 0;
        Takes(available, multiset(actual), kept, row);
        if count == 0 {
          ok := false;
        } else {
          available := available[row := count - 1];
        }
        kept := kept + [row];
      }
    }
    assert expected[..|expected|] == expected;
  }

  lemma KeptStart(name: string, p: Proof, actual: seq<Row>, keys: seq<string>, available: map<Row, nat>)
    requires forall row :: (if row in available then available[row] else 0) == multiset(actual)[row]
    ensures Kept([], name, p, actual, keys) == [] && Taken(available, multiset(actual), multiset([]))
  {
  }

  lemma KeptNext(expected: seq<Row>, i: nat, name: string, p: Proof, actual: seq<Row>, keys: seq<string>)
    requires i < |expected|
    ensures Kept(expected[..i + 1], name, p, actual, keys) ==
            if !Present(expected[i], actual, keys) && Eligible(p, name, expected[i]) then Kept(expected[..i], name, p, actual, keys)
            else Kept(expected[..i], name, p, actual, keys) + [expected[i]]
  {
    assert expected[..i + 1][..i] == expected[..i];
  }

  /** What is left of each row after taking as many as there are. */
  ghost predicate Taken(available: map<Row, nat>, actual: multiset<Row>, kept: multiset<Row>) {
    forall row :: (if row in available then available[row] else 0) == (if actual[row] >= kept[row] then actual[row] - kept[row] else 0)
  }

  lemma Takes(available: map<Row, nat>, actual: multiset<Row>, kept: seq<Row>, row: Row)
    requires Taken(available, actual, multiset(kept))
    ensures var count := if row in available then available[row] else 0;
            && (count == 0 ==> Taken(available, actual, multiset(kept + [row])) && !(multiset(kept + [row]) <= actual))
            && (count > 0 ==> Taken(available[row := count - 1], actual, multiset(kept + [row]))
                              && (multiset(kept + [row]) <= actual <==> multiset(kept) <= actual))
  {
    var after := multiset(kept + [row]);
    assert after == multiset(kept)[row := multiset(kept)[row] + 1];
    if row in available && available[row] > 0 && multiset(kept) <= actual {
      forall other ensures after[other] <= actual[other] {
        assert multiset(kept)[other] <= actual[other];
      }
    }
    if after <= actual {
      forall other ensures multiset(kept)[other] <= actual[other] {
        assert after[other] <= actual[other];
      }
    }
  }

  // ---- All relations

  function Expected(before: Database, after: Database, name: string): seq<Row> {
    if name == STOPS then AllResumed(Rows(before, name), Rows(after, name), after.runs) else Rows(before, name)
  }

  predicate Bounded(before: Database, after: Database, name: string) {
    |Rows(before, name)| <= MAXIMUM_ROWS && |Rows(after, name)| <= MAXIMUM_ROWS && (name == STOPS ==> |after.runs| <= MAXIMUM_ROWS)
  }

  predicate Preserves(before: Database, after: Database, p: Proof, name: string) {
    multiset(Kept(Expected(before, after, name), name, p, Rows(after, name), Keys(before, name))) <= multiset(Rows(after, name))
  }

  datatype Report = Limit | Conflict(names: set<string>) | Preserved(preserved: map<string, nat>, expired: map<string, nat>)

  /**
   * The verification is exact. It succeeds if and only if every relation is within its bounds and preserved, and
   * then preserved and expired rows add up to the rows there were.
   */
  method VerifyPreservation(names: seq<string>, before: Database, after: Database, p: Proof) returns (report: Report)
    ensures report.Limit? <==> exists i :: 0 <= i < |names| && !Bounded(before, after, names[i])
    ensures report.Preserved? <==> forall i :: 0 <= i < |names| ==> Bounded(before, after, names[i]) && Preserves(before, after, p, names[i])
    ensures report.Conflict? ==> report.names == set i | 0 <= i < |names| && !Preserves(before, after, p, names[i]) :: names[i]
    ensures report.Preserved? ==> forall i :: 0 <= i < |names| ==>
              && names[i] in report.preserved && names[i] in report.expired
              && report.preserved[names[i]] + report.expired[names[i]] == |Rows(before, names[i])|
              && report.preserved[names[i]] == |Kept(Expected(before, after, names[i]), names[i], p, Rows(after, names[i]), Keys(before, names[i]))|
  {
    hide Kept, Expected, Bounded, Preserves, Rows;
    var conflicts: set<string> := {};
    var preserved: map<string, nat> := map[];
    var expired: map<string, nat> := map[];
    for i := 0 to |names|
      invariant forall j :: 0 <= j < i ==> Bounded(before, after, names[j])
      invariant conflicts == set j | 0 <= j < i && !Preserves(before, after, p, names[j]) :: names[j]
      invariant forall j :: 0 <= j < i ==> Counted(before, after, p, names[j], preserved, expired)
    {
      var name := names[i];
      var bounded, ok, kept, gone := VerifyOne(name, before, after, p);
      if !bounded {
        return Limit;
      }
      if !ok {
        conflicts := conflicts + {name};
      }
      preserved, expired := preserved[name := kept], expired[name := gone];
    }
    assert forall i :: 0 <= i < |names| && !Preserves(before, after, p, names[i]) ==> names[i] in conflicts;
    assert forall i :: 0 <= i < |names| ==> Counted(before, after, p, names[i], preserved, expired);
    return if conflicts != {} then Conflict(conflicts) else Preserved(preserved, expired);
  }

  method VerifyOne(name: string, before: Database, after: Database, p: Proof) returns (bounded: bool, ok: bool, preserved: nat, expired: nat)
    ensures bounded <==> Bounded(before, after, name)
    ensures bounded ==> ok == Preserves(before, after, p, name) && preserved + expired == |Rows(before, name)|
    ensures bounded ==> preserved == |Kept(Expected(before, after, name), name, p, Rows(after, name), Keys(before, name))|
  {
    hide Kept, Resumed;
    bounded, ok, preserved, expired := false, false, 0, 0;
    var existing, actual := Rows(before, name), Rows(after, name);
    if |existing| > MAXIMUM_ROWS || |actual| > MAXIMUM_ROWS {
      return;
    }
    var expected := existing;
    if name == STOPS {
      var few, rows, invalidated := ResumedNativeStops(existing, actual, after.runs);
      if !few {
        return;
      }
      expected := rows;
    }
    bounded := true;
    ok, expired := VerifyRelation(name, expected, actual, Keys(before, name), p);
    preserved := |existing| - expired;
  }

  ghost predicate Counted(before: Database, after: Database, p: Proof, name: string, preserved: map<string, nat>, expired: map<string, nat>) {
    && name in preserved && name in expired && preserved[name] + expired[name] == |Rows(before, name)|
    && preserved[name] == |Kept(Expected(before, after, name), name, p, Rows(after, name), Keys(before, name))|
  }
}
