/**
 The connection monitor's merge of successive snapshots: live connections with their traffic
 since the previous snapshot, and a bounded history of closed ones. A connection's metadata,
 chains, rule and start are one value here.
 */
module ConnectionHistory {
  import opened Wrappers

  const MAX_CLOSED: nat := 500

  /** A connection as the core reports it; counters may be missing. */
  datatype Reported = Reported(id: string, upload: Option<int>, download: Option<int>, details: string)

  datatype Connection = Connection(
    id: string, upload: int, download: int, curUpload: int, curDownload: int, details: string)

  datatype Payload = Payload(uploadTotal: Option<int>, downloadTotal: Option<int>, connections: Option<seq<Reported>>)

  datatype MonitorData = MonitorData(
    uploadTotal: int, downloadTotal: int, active: seq<Connection>, closed: seq<Connection>)

  const INITIAL := MonitorData(0, 0, [], [])

  function OrZero(n: Option<int>): int {
    if n.Some? then n.value else 0
  }

  function NormalizeConnection(connection: Reported, previous: Option<Connection>): Connection {
    var upload, download := OrZero(connection.upload), OrZero(connection.download);
    var curUpload := if previous.Some? then upload - previous.value.upload else 0;
    var curDownload := if previous.Some? then download - previous.value.download else 0;
    if previous.Some?
       && previous.value == Connection(previous.value.id, upload, download, curUpload, curDownload, connection.details)
    then previous.value
    else Connection(connection.id, upload, download, curUpload, curDownload, connection.details)
  }

  // ----- what the loops compute -----

  predicate HasId(connections: seq<Connection>, id: string) {
    exists i | 0 <= i < |connections| :: connections[i].id == id
  }

  predicate Reports(connections: seq<Reported>, id: string) {
    exists i | 0 <= i < |connections| :: connections[i].id == id
  }

  /** The last connection with that id, as a map filled in order keeps it. */
  function Latest(connections: seq<Connection>, id: string): (c: Option<Connection>)
    ensures c.Some? <==> HasId(connections, id)
    ensures c.Some? ==> c.value in connections && c.value.id == id
  {
    if connections == [] then None
    else if connections[|connections| - 1].id == id then Some(connections[|connections| - 1])
    else
      var front := connections[..|connections| - 1];
      assert HasId(connections, id) <==> HasId(front, id) by {
        assert forall i | 0 <= i < |front| :: front[i] == connections[i];
      }
      Latest(front, id)
  }

  /** Nothing after the connection found has its id. */
  lemma {:induction false} LatestIsLast(connections: seq<Connection>, id: string, i: nat)
    requires i < |connections| && connections[i].id == id && forall k | i < k < |connections| :: connections[k].id != id
    ensures Latest(connections, id) == Some(connections[i])
  {
    if i < |connections| - 1 {
      LatestIsLast(connections[..|connections| - 1], id, i);
    }
  }

  /** A previous connection counts for the first report of its id. */
  function PreviousFor(active: seq<Connection>, next: seq<Reported>, i: nat): Option<Connection>
    requires i < |next|
  {
    if Reports(next[..i], next[i].id) then None else Latest(active, next[i].id)
  }

  function MergedActive(active: seq<Connection>, next: seq<Reported>): (merged: seq<Connection>)
    ensures |merged| == |next|
    ensures forall i | 0 <= i < |next| :: merged[i] == NormalizeConnection(next[i], PreviousFor(active, next, i))
  {
    seq(|next|, i requires 0 <= i < |next| => NormalizeConnection(next[i], PreviousFor(active, next, i)))
  }

  /** The connections that the next snapshot no longer reports, in order. */
  function Removed(active: seq<Connection>, next: seq<Reported>): seq<Connection> {
    if active == [] then []
    else
      var last := active[|active| - 1];
      Removed(active[..|active| - 1], next) + (if Reports(next, last.id) then [] else [last])
  }

  function RemovedIds(active: seq<Connection>, next: seq<Reported>): set<string> {
    set c | c in active && !Reports(next, c.id) :: c.id
  }

  function Max(a: int, b: int): int {
    if a >= b then a else b
  }

  function LastOf<T>(s: seq<T>, n: nat): seq<T> {
    s[Max(0, |s| - n)..]
  }

  function Skipping<T>(s: seq<T>, n: nat): seq<T> {
    if n <= |s| then s[n..] else []
  }

  lemma SkippingOneMore<T>(s: seq<T>, n: nat, x: T)
    ensures Skipping(s + [x], n) == if n <= |s| then Skipping(s, n) + [x] else []
    ensures n > |s| ==> Skipping(s, n) == []
  {
  }

  lemma NothingSkipped<T>(n: nat)
    ensures Skipping<T>([], n) == []
  {
  }

  /** The source's arithmetic, with `count` ids removed. */
  function MergedClosed(closed: seq<Connection>, removed: seq<Connection>, count: nat): seq<Connection> {
    if count == 0 then closed
    else
      var drop := Max(0, |closed| + count - MAX_CLOSED);
      var kept := if drop >= |closed| then [] else closed[drop..];
      var skip := Max(0, count - (MAX_CLOSED - |kept|));
      kept + Skipping(removed, skip)
  }

  function Merged(payload: Payload, previous: MonitorData): MonitorData {
    var next := if payload.connections.Some? then payload.connections.value else [];
    MonitorData(
      OrZero(payload.uploadTotal), OrZero(payload.downloadTotal),
      MergedActive(previous.active, next),
      MergedClosed(previous.closed, Removed(previous.active, next), |RemovedIds(previous.active, next)|))
  }

  // ----- what a merge shows -----

  function ReportedBy(payload: Payload): seq<Reported> {
    if payload.connections.Some? then payload.connections.value else []
  }

  /** A connection shows its report, a missing counter being zero. */
  ghost predicate Shows(c: Connection, report: Reported) {
    && c.id == report.id && c.details == report.details
    && c.upload == (if report.upload.Some? then report.upload.value else 0)
    && c.download == (if report.download.Some? then report.download.value else 0)
  }

  /** The new traffic of a connection is what its counters gained on the previous connection, if it has one. */
  ghost predicate ShowsGain(c: Connection, previous: Option<Connection>) {
    && c.curUpload == (if previous.Some? then c.upload - previous.value.upload else 0)
    && c.curDownload == (if previous.Some? then c.download - previous.value.download else 0)
  }

  /** The merged snapshot shows the payload's totals, and each report in its place. */
  ghost predicate ShowsPayload(merged: MonitorData, payload: Payload, previous: MonitorData) {
    var next := ReportedBy(payload);
    && merged.uploadTotal == (if payload.uploadTotal.Some? then payload.uploadTotal.value else 0)
    && merged.downloadTotal == (if payload.downloadTotal.Some? then payload.downloadTotal.value else 0)
    && |merged.active| == |next|
    && forall i | 0 <= i < |next| ::
         && Shows(merged.active[i], next[i])
         && ShowsGain(merged.active[i], if Reports(next[..i], next[i].id) then None else Latest(previous.active, next[i].id))
  }

  lemma MergeShowsPayload(payload: Payload, previous: MonitorData)
    ensures ShowsPayload(Merged(payload, previous), payload, previous)
  {
    hide Reports, HasId, Latest, MergedClosed;
    var next := ReportedBy(payload);
    forall i | 0 <= i < |next|
      ensures Shows(MergedActive(previous.active, next)[i], next[i])
    {
      FoundHasId(previous.active, next[i].id);
    }
  }

  lemma FoundHasId(connections: seq<Connection>, id: string)
    ensures Latest(connections, id).Some? ==> Latest(connections, id).value.id == id
  {
  }

  /** The removed connections are the unreported ones, each as often and in the order in which they were active. */
  lemma {:induction false} RemovedInOrder(active: seq<Connection>, next: seq<Reported>) returns (at: seq<nat>)
    ensures |at| == |Removed(active, next)|
    ensures forall k | 0 <= k < |at| :: at[k] < |active| && Removed(active, next)[k] == active[at[k]]
    ensures forall k, m | 0 <= k < m < |at| :: at[k] < at[m]
    ensures forall i: nat | i < |active| :: i in at <==> !Reports(next, active[i].id)
  {
    hide Reports;
    if active == [] {
      at := [];
    } else {
      var front, last := active[..|active| - 1], active[|active| - 1];
      at := RemovedInOrder(front, next);
      assert forall i: nat | i < |front| :: front[i] == active[i];
      assert forall k | 0 <= k < |at| :: at[k] != |front|;
      if !Reports(next, last.id) {
        at := at + [|front|];
      }
    }
  }

  // ----- the merge -----

  method MergeConnectionSnapshot(payload: Payload, previous: MonitorData) returns (merged: MonitorData)
    ensures merged == Merged(payload, previous) && ShowsPayload(merged, payload, previous)
  {
    hide Removed, RemovedIds, HasId, Reports, ShowsPayload;
    MergeShowsPayload(payload, previous);
    var next := if payload.connections.Some? then payload.connections.value else [];
    var byId := IndexById(previous.active);
    var active;
    active, byId := MergeActive(previous.active, next, byId);
    RemainingIds(previous.active, next, byId);
    if |byId| == 0 {
      return MonitorData(OrZero(payload.uploadTotal), OrZero(payload.downloadTotal), active, previous.closed);
    }
    var closed := CloseRemoved(previous, next, byId);
    merged := MonitorData(OrZero(payload.uploadTotal), OrZero(payload.downloadTotal), active, closed);
  }

  ghost predicate IsIndex(active: seq<Connection>, byId: map<string, Connection>) {
    && (forall id :: id in byId <==> HasId(active, id))
    && (forall id | id in byId :: Latest(active, id) == Some(byId[id]))
  }

  method IndexById(active: seq<Connection>) returns (byId: map<string, Connection>)
    ensures IsIndex(active, byId)
  {
    hide HasId, Latest;
    byId := map[];
    NothingIndexed();
    for i := 0 to |active|
      invariant IsIndex(active[..i], byId)
    {
      FilledInOrder(active, i, byId);
      byId := byId[active[i].id := active[i]];
    }
    assert active[..|active|] == active;
  }

  lemma NothingIndexed()
    ensures IsIndex([], map[])
  {
  }

  /** What is left of the index once the first `i` reports have taken their previous connections. */
  ghost predicate IsLeft(active: seq<Connection>, reported: seq<Reported>, byId: map<string, Connection>) {
    && (forall id :: id in byId <==> HasId(active, id) && !Reports(reported, id))
    && (forall id | id in byId :: Latest(active, id) == Some(byId[id]))
  }

  method MergeActive(active: seq<Connection>, next: seq<Reported>, index: map<string, Connection>)
    returns (merged: seq<Connection>, byId: map<string, Connection>)
    requires IsIndex(active, index)
    ensures merged == MergedActive(active, next) && IsLeft(active, next, byId)
  {
    hide NormalizeConnection, Latest, HasId, IsLeft, PreviousFor;
    merged, byId := [], index;
    NothingReported(active, index);
    assert next[..0] == [];
    for i := 0 to |next|
      invariant IsLeft(active, next[..i], byId)
      invariant |merged| == i
      invariant forall k | 0 <= k < i :: merged[k] == NormalizeConnection(next[k], PreviousFor(active, next, k))
    {
      var id := next[i].id;
      var found := if id in byId then Some(byId[id]) else None;
      LookedUp(active, next, i, byId);
      byId := byId - {id};
      merged := merged + [NormalizeConnection(next[i], found)];
    }
    assert next[..|next|] == next;
  }

  lemma NothingReported(active: seq<Connection>, index: map<string, Connection>)
    requires IsIndex(active, index)
    ensures IsLeft(active, [], index)
  {
  }

  lemma FilledInOrder(active: seq<Connection>, i: nat, byId: map<string, Connection>)
    requires i < |active| && IsIndex(active[..i], byId)
    ensures IsIndex(active[..i + 1], byId[active[i].id := active[i]])
  {
    var longer := active[..i + 1];
    assert longer[..i] == active[..i] && longer[i] == active[i];
    forall id
      ensures HasId(longer, id) <==> HasId(active[..i], id) || active[i].id == id
    {
      if HasId(active[..i], id) {
        var k :| 0 <= k < i && active[..i][k].id == id;
        assert longer[k].id == id;
      }
    }
  }

  lemma ReportsOneMore(next: seq<Reported>, i: nat, id: string)
    requires i < |next|
    ensures Reports(next[..i + 1], id) <==> Reports(next[..i], id) || next[i].id == id
  {
    if Reports(next[..i], id) {
      var k :| 0 <= k < i && next[..i][k].id == id;
      assert next[..i + 1][k].id == id;
    }
    assert next[..i + 1][i] == next[i];
    assert forall k | 0 <= k < i :: next[..i + 1][k] == next[..i][k];
  }

  lemma LookedUp(active: seq<Connection>, next: seq<Reported>, i: nat, byId: map<string, Connection>)
    requires i < |next| && IsLeft(active, next[..i], byId)
    ensures PreviousFor(active, next, i) == if next[i].id in byId then Some(byId[next[i].id]) else None
    ensures IsLeft(active, next[..i + 1], byId - {next[i].id})
  {
    hide Latest, HasId;
    forall id
      ensures Reports(next[..i + 1], id) <==> Reports(next[..i], id) || next[i].id == id
    {
      ReportsOneMore(next, i, id);
    }
    LatestExists(active, next[i].id);
  }

  lemma LatestExists(active: seq<Connection>, id: string)
    ensures Latest(active, id).Some? <==> HasId(active, id)
  {
  }

  lemma RemainingIds(active: seq<Connection>, next: seq<Reported>, byId: map<string, Connection>)
    requires IsLeft(active, next, byId)
    ensures byId.Keys == RemovedIds(active, next) && |byId| == |RemovedIds(active, next)|
  {
    forall id
      ensures id in byId <==> id in RemovedIds(active, next)
    {
      if HasId(active, id) && !Reports(next, id) {
        var i :| 0 <= i < |active| && active[i].id == id;
        assert active[i] in active;
      }
    }
    assert |byId| == |byId.Keys|;
  }

  /** Trim the old history, then append what was removed, skipping what would not fit. */
  method CloseRemoved(previous: MonitorData, next: seq<Reported>, byId: map<string, Connection>)
    returns (closed: seq<Connection>)
    requires byId.Keys == RemovedIds(previous.active, next) && |byId| > 0
    ensures closed == MergedClosed(previous.closed, Removed(previous.active, next), |byId|)
  {
    hide Reports, Removed, RemovedIds, Skipping;
    var removedCount := |byId|;
    var drop := Max(0, |previous.closed| + removedCount - MAX_CLOSED);
    var kept := if drop >= |previous.closed| then [] else previous.closed[drop..];
    var skip := Max(0, removedCount - (MAX_CLOSED - |kept|));
    closed := AppendRemoved(kept, previous.active, next, byId, skip);
  }

  method AppendRemoved(kept: seq<Connection>, active: seq<Connection>, next: seq<Reported>,
                       byId: map<string, Connection>, toSkip: nat) returns (closed: seq<Connection>)
    requires byId.Keys == RemovedIds(active, next)
    ensures closed == kept + Skipping(Removed(active, next), toSkip)
  {
    hide Reports, Removed, RemovedIds, Skipping;
    closed := kept;
    var skip := toSkip;
    NothingRemoved(next);
    NothingSkipped<Connection>(toSkip);
    assert active[..0] == [];
    for i := 0 to |active|
      invariant skip == Max(0, toSkip - |Removed(active[..i], next)|)
      invariant closed == kept + Skipping(Removed(active[..i], next), toSkip)
    {
      RemovedOneMore(active, next, i);
      SkippingOneMore(Removed(active[..i], next), toSkip, active[i]);
      if active[i].id !in byId {
        continue;
      }
      if skip > 0 {
        skip := skip - 1;
        continue;
      }
      Reassociate(kept, Skipping(Removed(active[..i], next), toSkip), active[i]);
      closed := closed + [active[i]];
    }
    assert active[..|active|] == active;
  }

  lemma Reassociate<T>(a: seq<T>, b: seq<T>, x: T)
    ensures a + b + [x] == a + (b + [x])
  {
  }

  lemma NothingRemoved(next: seq<Reported>)
    ensures Removed([], next) == []
  {
  }

  lemma RemovedOneMore(active: seq<Connection>, next: seq<Reported>, i: nat)
    requires i < |active|
    ensures Removed(active[..i + 1], next)
            == if Reports(next, active[i].id) then Removed(active[..i], next) else Removed(active[..i], next) + [active[i]]
    ensures active[i].id in RemovedIds(active, next) <==> !Reports(next, active[i].id)
  {
    assert active[..i + 1][..i] == active[..i];
    assert active[i] in active;
  }

  // ----- the closed history -----

  ghost predicate HaveDistinctIds(connections: seq<Connection>) {
    forall i, j | 0 <= i < j < |connections| :: connections[i].id != connections[j].id
  }

  function IdsOf(connections: seq<Connection>): set<string> {
    set c | c in connections :: c.id
  }

  /** There are as many ids as connections exactly when no id is there twice. */
  lemma {:induction false} IdsCount(connections: seq<Connection>)
    ensures |IdsOf(connections)| <= |connections|
    ensures |IdsOf(connections)| == |connections| <==> HaveDistinctIds(connections)
    ensures connections != [] ==> IdsOf(connections) != {}
  {
    if connections != [] {
      var front, last := connections[..|connections| - 1], connections[|connections| - 1];
      IdsCount(front);
      assert connections == front + [last];
      IdsOneMore(front, last);
      DistinctOneMore(front, last);
    }
  }

  lemma IdsOneMore(front: seq<Connection>, last: Connection)
    ensures IdsOf(front + [last]) == IdsOf(front) + {last.id}
  {
    assert forall c :: c in front + [last] <==> c in front || c == last;
  }

  lemma DistinctOneMore(front: seq<Connection>, last: Connection)
    ensures HaveDistinctIds(front + [last]) <==> HaveDistinctIds(front) && last.id !in IdsOf(front)
  {
    var all := front + [last];
    assert forall k | 0 <= k < |front| :: all[k] == front[k];
    assert all[|front|] == last;
    if HaveDistinctIds(front) && last.id !in IdsOf(front) {
      assert forall k | 0 <= k < |front| :: front[k].id in IdsOf(front);
    }
  }

  lemma {:induction false} RemovedMembers(active: seq<Connection>, next: seq<Reported>)
    ensures forall c :: c in Removed(active, next) <==> c in active && !Reports(next, c.id)
    ensures HaveDistinctIds(active) ==> HaveDistinctIds(Removed(active, next))
  {
    hide HaveDistinctIds, Reports;
    if active == [] {
      NothingDistinct();
    } else {
      var front, last := active[..|active| - 1], active[|active| - 1];
      RemovedMembers(front, next);
      assert active == front + [last];
      DistinctOneMore(front, last);
      DistinctOneMore(Removed(front, next), last);
      assert IdsOf(Removed(front, next)) <= IdsOf(front);
      assert Removed(front, next) + [] == Removed(front, next);
    }
  }

  lemma NothingDistinct()
    ensures HaveDistinctIds([])
  {
  }

  lemma RemovedIdsAreIds(active: seq<Connection>, next: seq<Reported>)
    ensures RemovedIds(active, next) == IdsOf(Removed(active, next))
  {
    RemovedMembers(active, next);
  }

  lemma MergedClosedLength(closed: seq<Connection>, removed: seq<Connection>, count: nat)
    requires |closed| <= MAX_CLOSED && count <= |removed| && (removed != [] ==> count > 0)
    ensures |MergedClosed(closed, removed, count)|
            == if |closed| + count <= MAX_CLOSED then |closed| + |removed| else MAX_CLOSED + |removed| - count
  {
  }

  lemma MergedClosedFits(closed: seq<Connection>, removed: seq<Connection>, count: nat)
    requires |closed| <= MAX_CLOSED && count <= |removed| && (removed != [] ==> count > 0)
    requires count == |removed| || |closed| + |removed| <= MAX_CLOSED
    ensures MergedClosed(closed, removed, count) == LastOf(closed + removed, MAX_CLOSED)
  {
    var all := closed + removed;
    if |closed| + |removed| <= MAX_CLOSED {
      assert all[0..] == all;
    } else if count <= MAX_CLOSED {
      assert all[|all| - MAX_CLOSED..] == closed[|closed| + count - MAX_CLOSED..] + removed;
    } else {
      assert all[|all| - MAX_CLOSED..] == removed[count - MAX_CLOSED..];
    }
  }

  lemma MergedClosedIsLast(closed: seq<Connection>, removed: seq<Connection>, count: nat)
    requires |closed| <= MAX_CLOSED && count <= |removed| && (removed != [] ==> count > 0)
    ensures var fits := count == |removed| || |closed| + |removed| <= MAX_CLOSED;
            && (MergedClosed(closed, removed, count) == LastOf(closed + removed, MAX_CLOSED) <==> fits)
            && (|MergedClosed(closed, removed, count)| <= MAX_CLOSED <==> fits)
  {
    hide MergedClosed;
    MergedClosedLength(closed, removed, count);
    if count == |removed| || |closed| + |removed| <= MAX_CLOSED {
      MergedClosedFits(closed, removed, count);
    }
  }

  /**
   A merge keeps the last 500 of the history and its removals, and stays within 500, exactly when
   no id is removed twice or everything fits.
   */
  lemma MergeKeepsLastExactlyWhen(payload: Payload, previous: MonitorData)
    requires |previous.closed| <= MAX_CLOSED
    ensures var removed := Removed(previous.active, ReportedBy(payload));
            var fits := HaveDistinctIds(removed) || |previous.closed| + |removed| <= MAX_CLOSED;
            && (Merged(payload, previous).closed == LastOf(previous.closed + removed, MAX_CLOSED) <==> fits)
            && (|Merged(payload, previous).closed| <= MAX_CLOSED <==> fits)
  {
    hide HaveDistinctIds, Removed, RemovedIds, MergedClosed;
    var removed := Removed(previous.active, ReportedBy(payload));
    RemovedIdsAreIds(previous.active, ReportedBy(payload));
    IdsCount(removed);
    MergedClosedIsLast(previous.closed, removed, |IdsOf(removed)|);
  }

  /** A full history, and two connections of one id that go in the same snapshot, make 501. */
  lemma RepeatedIdOverflows(previous: MonitorData)
    requires |previous.closed| == MAX_CLOSED && |previous.active| == 2 && previous.active[0].id == previous.active[1].id
    ensures |Merged(Payload(None, None, None), previous).closed| == MAX_CLOSED + 1
  {
    var c, d := previous.active[0], previous.active[1];
    assert previous.active == [c, d];
    NoneReported(previous.active, []);
    RemovedIdsAreIds(previous.active, []);
    assert IdsOf([c, d]) == {c.id};
  }

  lemma NoneReported(active: seq<Connection>, next: seq<Reported>)
    requires forall i | 0 <= i < |active| :: !Reports(next, active[i].id)
    ensures Removed(active, next) == active
  {
    NoneReportedOf(active, next, |active|);
    assert active[..|active|] == active;
  }

  lemma {:induction false} NoneReportedOf(active: seq<Connection>, next: seq<Reported>, count: nat)
    requires count <= |active| && forall i | 0 <= i < |active| :: !Reports(next, active[i].id)
    ensures Removed(active[..count], next) == active[..count]
  {
    hide Reports, Removed;
    if count == 0 {
      NothingRemoved(next);
      assert active[..0] == [];
    } else {
      NoneReportedOf(active, next, count - 1);
      RemovedOneMore(active, next, count - 1);
      assert active[..count] == active[..count - 1] + [active[count - 1]];
    }
  }

  function Named(i: nat): Reported {
    Reported(seq(i, _ => 'x'), None, None, "")
  }

  /** Three snapshots from the start: 500 connections, then two of one id, then none. */
  lemma OverflowIsReachable() returns (first: Payload, second: Payload)
    ensures var full := Merged(second, Merged(first, INITIAL));
            |Merged(Payload(None, None, None), full).closed| == MAX_CLOSED + 1
  {
    hide NormalizeConnection, Removed, MergedClosed;
    first := Payload(None, None, Some(seq(MAX_CLOSED, i requires 0 <= i < MAX_CLOSED => Named(i))));
    second := Payload(None, None, Some([Named(MAX_CLOSED), Named(MAX_CLOSED)]));
    var live := Merged(first, INITIAL);
    NoneReported([], ReportedBy(first));
    assert live.closed == [] by { NothingClosed(ReportedBy(first)); }
    MergedIds([], ReportedBy(first));
    forall i, j | 0 <= i < j < MAX_CLOSED
      ensures live.active[i].id != live.active[j].id
    {
      assert |live.active[i].id| == i && |live.active[j].id| == j;
    }
    NoneReported(live.active, ReportedBy(second));
    MergeKeepsLastExactlyWhen(second, live);
    assert [] + live.active == live.active;
    var full := Merged(second, live);
    MergedIds(live.active, ReportedBy(second));
    RepeatedIdOverflows(full);
  }

  lemma NothingClosed(next: seq<Reported>)
    ensures MergedClosed([], Removed([], next), |RemovedIds([], next)|) == []
  {
    RemovedIdsAreIds([], next);
    assert IdsOf([]) == {};
  }

  lemma LastOfLast<T>(a: seq<T>, b: seq<T>, n: nat)
    ensures LastOf(LastOf(a, n) + b, n) == LastOf(a + b, n)
  {
  }

  // ----- runs of merges and clears -----

  class ConnectionMonitor {
    var connectionData: MonitorData
    ghost var removals: seq<Connection>
    ghost var distinct: bool

    /** As long as no snapshot repeats an id, the closed list is the last 500 removals since the last clear. */
    ghost predicate Valid()
      reads this
    {
      distinct ==> HaveDistinctIds(connectionData.active) && connectionData.closed == LastOf(removals, MAX_CLOSED)
    }

    constructor ()
      ensures Valid() && connectionData == INITIAL && removals == [] && distinct
    {
      connectionData, removals, distinct := INITIAL, [], true;
    }

    method Merge(payload: Payload)
      requires Valid()
      modifies this
      ensures Valid() && connectionData == Merged(payload, old(connectionData))
      ensures ShowsPayload(connectionData, payload, old(connectionData))
      ensures removals == old(removals) + Removed(old(connectionData).active, ReportedBy(payload))
      ensures distinct <==> old(distinct) && HaveDistinctReports(ReportedBy(payload))
    {
      ghost var next := ReportedBy(payload);
      ghost var removed := Removed(connectionData.active, next);
      RemovedMembers(connectionData.active, next);
      if distinct {
        MergeKeepsLastExactlyWhen(payload, connectionData);
        LastOfLast(removals, removed, MAX_CLOSED);
      }
      MergedIds(connectionData.active, next);
      connectionData := MergeConnectionSnapshot(payload, connectionData);
      removals, distinct := removals + removed, distinct && HaveDistinctReports(next);
    }

    method ClearClosedConnectionData()
      requires Valid()
      modifies this
      ensures Valid() && removals == [] && distinct == old(distinct)
      ensures connectionData == old(connectionData).(closed := [])
    {
      removals := [];
      if |connectionData.closed| == 0 {
        return;
      }
      connectionData := connectionData.(closed := []);
    }
  }

  ghost predicate HaveDistinctReports(next: seq<Reported>) {
    forall i, j | 0 <= i < j < |next| :: next[i].id != next[j].id
  }

  lemma MergedIds(active: seq<Connection>, next: seq<Reported>)
    ensures forall i | 0 <= i < |next| :: MergedActive(active, next)[i].id == next[i].id
    ensures HaveDistinctReports(next) ==> HaveDistinctIds(MergedActive(active, next))
  {
  }

  // ----- traffic -----

  /** The merges of a run, in order. */
  ghost predicate AreMerges(states: seq<MonitorData>, payloads: seq<Payload>) {
    && |states| == |payloads| + 1
    && forall k | 0 <= k < |payloads| :: IsMerge(states, payloads, k)
  }

  ghost predicate IsMerge(states: seq<MonitorData>, payloads: seq<Payload>, k: nat)
    requires k < |payloads| < |states|
  {
    HaveDistinctReports(ReportedBy(payloads[k])) && states[k + 1].active == Merged(payloads[k], states[k]).active
  }

  /** What the snapshots after `i`, up to `j`, have shown as new traffic of a connection. */
  ghost function ShownUpload(states: seq<MonitorData>, id: string, i: nat, j: nat): int
    requires i <= j < |states| && forall k | i <= k <= j :: HasId(states[k].active, id)
  {
    if i == j then 0 else ShownUpload(states, id, i, j - 1) + Latest(states[j].active, id).value.curUpload
  }

  ghost function ShownDownload(states: seq<MonitorData>, id: string, i: nat, j: nat): int
    requires i <= j < |states| && forall k | i <= k <= j :: HasId(states[k].active, id)
  {
    if i == j then 0 else ShownDownload(states, id, i, j - 1) + Latest(states[j].active, id).value.curDownload
  }

  lemma DeltaOfMerge(active: seq<Connection>, next: seq<Reported>, id: string)
    requires HaveDistinctReports(next) && HasId(active, id) && HasId(MergedActive(active, next), id)
    ensures var before, after := Latest(active, id).value, Latest(MergedActive(active, next), id).value;
            after.curUpload == after.upload - before.upload && after.curDownload == after.download - before.download
  {
    var merged := MergedActive(active, next);
    MergedIds(active, next);
    var after := Latest(merged, id).value;
    var i :| 0 <= i < |merged| && merged[i] == after;
    assert !Reports(next[..i], next[i].id);
  }

  lemma {:induction false} CountersTelescope(states: seq<MonitorData>, payloads: seq<Payload>, id: string, i: nat, j: nat)
    requires AreMerges(states, payloads) && i <= j < |states|
    requires forall k | i <= k <= j :: HasId(states[k].active, id)
    ensures ShownUpload(states, id, i, j) == Latest(states[j].active, id).value.upload - Latest(states[i].active, id).value.upload
    ensures ShownDownload(states, id, i, j)
            == Latest(states[j].active, id).value.download - Latest(states[i].active, id).value.download
  {
    hide Latest, HasId, MergedActive, MergedClosed, Removed, RemovedIds;
    if i < j {
      CountersTelescope(states, payloads, id, i, j - 1);
      assert IsMerge(states, payloads, j - 1);
      DeltaOfMerge(states[j - 1].active, ReportedBy(payloads[j - 1]), id);
    }
  }

  /** The connection found by its id shows its report. */
  lemma FoundShowsReport(payload: Payload, previous: MonitorData, x: nat)
    requires HaveDistinctReports(ReportedBy(payload)) && x < |ReportedBy(payload)|
    ensures var c := Latest(Merged(payload, previous).active, ReportedBy(payload)[x].id);
            c.Some? && Shows(c.value, ReportedBy(payload)[x])
  {
    hide Reports, Merged;
    MergeShowsPayload(payload, previous);
    var active, next := Merged(payload, previous).active, ReportedBy(payload);
    assert active[x].id == next[x].id;
    var c := Latest(active, next[x].id).value;
    var y :| 0 <= y < |active| && active[y] == c;
    assert Shows(active[y], next[y]);
  }

  /**
   Over any stretch of merges that keeps reporting a connection, the traffic shown of it is what the
   last payload reported less what the first one did, a missing counter being zero.
   */
  lemma ShownTrafficTelescopes(states: seq<MonitorData>, payloads: seq<Payload>, id: string, i: nat, j: nat, x: nat, y: nat)
    requires AreMerges(states, payloads) && 0 < i <= j < |states|
    requires forall k | i <= k <= j :: HasId(states[k].active, id)
    requires x < |ReportedBy(payloads[i - 1])| && ReportedBy(payloads[i - 1])[x].id == id
    requires y < |ReportedBy(payloads[j - 1])| && ReportedBy(payloads[j - 1])[y].id == id
    ensures var first, last := ReportedBy(payloads[i - 1])[x], ReportedBy(payloads[j - 1])[y];
            && ShownUpload(states, id, i, j) == (if last.upload.Some? then last.upload.value else 0)
                                                - (if first.upload.Some? then first.upload.value else 0)
            && ShownDownload(states, id, i, j) == (if last.download.Some? then last.download.value else 0)
                                                  - (if first.download.Some? then first.download.value else 0)
  {
    hide Latest, HasId, Merged, HaveDistinctReports, ShownUpload, ShownDownload;
    CountersTelescope(states, payloads, id, i, j);
    assert IsMerge(states, payloads, i - 1) && IsMerge(states, payloads, j - 1);
    FoundShowsReport(payloads[i - 1], states[i - 1], x);
    FoundShowsReport(payloads[j - 1], states[j - 1], y);
  }
}
