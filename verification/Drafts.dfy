/**
 The copy-on-write draft cell. Shared pointers are addresses of reference-counted allocations;
 an allocation whose count falls to zero is freed and its address may be handed out again.
 Each step is one critical section of the cell, one reference cloned or dropped outside it, or
 one move of the modify permit, so that a run is any interleaving of any number of clients. The
 end of a modify is three such steps: the commit, the drop of the reference it kept, the permit.
 */
module Drafts {
  import opened Wrappers

  type Address = nat

  datatype Cell<T> = Cell(value: T, count: nat)

  /** Who keeps a reference besides the cell itself: a reader's snapshot, or a modify in progress. */
  datatype Holder = Reader(id: nat) | Modifier(id: nat)

  datatype State<T> = State(
    cells: map<Address, Cell<T>>,
    committed: Address,
    draft: Option<Address>,
    modifying: bool,
    permits: set<nat>,
    finished: set<nat>,
    holders: map<Holder, Address>)

  datatype Label<T> =
    | DataArc(reader: Holder)
    | LatestArc(reader: Holder)
    | CloneArc(source: Holder, reader: Holder)
    | DropArc(reader: Holder)
    | EditDraft(edited: T, spare: Address)
    | Apply
    | Discard
    | Acquire(task: nat)
    | ReadCommitted(task: nat)
    | CommitModify(task: nat, value: T, spare: Address)
    | DropOriginal(task: nat)
    | ReturnPermit(task: nat)

  // ----- reference counting -----

  function Retained<T>(cells: map<Address, Cell<T>>, a: Address): map<Address, Cell<T>>
  {
    if a in cells then cells[a := Cell(cells[a].value, cells[a].count + 1)] else cells
  }

  function Released<T>(cells: map<Address, Cell<T>>, a: Address): map<Address, Cell<T>>
  {
    if a !in cells || cells[a].count <= 1 then cells - {a}
    else cells[a := Cell(cells[a].value, cells[a].count - 1)]
  }

  // ----- steps -----

  predicate Enabled<T>(s: State<T>, l: Label<T>) {
    match l
    case DataArc(reader) => reader.Reader? && reader !in s.holders
    case LatestArc(reader) => reader.Reader? && reader !in s.holders
    case CloneArc(source, reader) => source in s.holders && reader.Reader? && reader !in s.holders
    case DropArc(reader) => reader.Reader? && reader in s.holders
    case EditDraft(_, spare) => spare !in s.cells
    case Apply => true
    case Discard => true
    case Acquire(task) => !s.modifying && task !in s.permits
    case ReadCommitted(task) => task in s.permits && task !in s.finished && Modifier(task) !in s.holders
    case CommitModify(task, _, spare) => Modifier(task) in s.holders && task !in s.finished && spare !in s.cells
    case DropOriginal(task) => Modifier(task) in s.holders
    case ReturnPermit(task) => task in s.permits && Modifier(task) !in s.holders
  }

  /** Every reference in use points at a live allocation. */
  predicate IsClosed<T>(s: State<T>) {
    && s.committed in s.cells
    && (s.draft.Some? ==> s.draft.value in s.cells)
    && forall h | h in s.holders :: s.holders[h] in s.cells
  }

  function Latest<T>(s: State<T>): Address {
    if s.draft.Some? then s.draft.value else s.committed
  }

  function Held<T>(s: State<T>, h: Holder, a: Address): State<T> {
    s.(cells := Retained(s.cells, a), holders := s.holders[h := a])
  }

  function Dropped<T>(s: State<T>, h: Holder): State<T>
    requires h in s.holders
  {
    s.(cells := Released(s.cells, s.holders[h]), holders := s.holders - {h})
  }

  /** Make the draft unique, cloning it only when someone else can see it, and edit it in place. */
  function Edited<T>(s: State<T>, edited: T, spare: Address): State<T>
    requires IsClosed(s)
  {
    var cells := if s.draft.Some? then s.cells else Retained(s.cells, s.committed);
    var a := Latest(s);
    if cells[a].count == 1 then s.(cells := cells[a := Cell(edited, 1)], draft := Some(a))
    else s.(cells := Released(cells, a)[spare := Cell(edited, 1)], draft := Some(spare))
  }

  function Applied<T>(s: State<T>): State<T> {
    if s.draft.None? then s
    else s.(cells := Released(s.cells, s.committed), committed := s.draft.value, draft := None)
  }

  function Discarded<T>(s: State<T>): State<T> {
    if s.draft.None? then s else s.(cells := Released(s.cells, s.draft.value), draft := None)
  }

  /** The committed allocation is still the one that the modify read. */
  predicate Succeeds<T>(s: State<T>, task: nat) {
    Modifier(task) in s.holders && s.committed == s.holders[Modifier(task)]
  }

  function Replaced<T>(s: State<T>, value: T, spare: Address): State<T> {
    s.(cells := Released(s.cells, s.committed)[spare := Cell(value, 1)], committed := spare)
  }

  /** The modify reads nothing more: it has committed, failed or been cancelled. */
  function Finished<T>(s: State<T>, task: nat): State<T> {
    s.(finished := s.finished + {task})
  }

  function Next<T>(s: State<T>, l: Label<T>): State<T>
    requires IsClosed(s) && Enabled(s, l)
  {
    match l
    case DataArc(reader) => Held(s, reader, s.committed)
    case LatestArc(reader) => Held(s, reader, Latest(s))
    case CloneArc(source, reader) => Held(s, reader, s.holders[source])
    case DropArc(reader) => Dropped(s, reader)
    case EditDraft(edited, spare) => Edited(s, edited, spare)
    case Apply => Applied(s)
    case Discard => Discarded(s)
    case Acquire(task) => s.(modifying := true, permits := s.permits + {task})
    case ReadCommitted(task) => Held(s, Modifier(task), s.committed)
    case CommitModify(task, value, spare) =>
      Finished(if Succeeds(s, task) then Replaced(s, value, spare) else s, task)
    case DropOriginal(task) => Finished(Dropped(s, Modifier(task)), task)
    case ReturnPermit(task) => s.(modifying := false, permits := s.permits - {task}, finished := s.finished - {task})
  }

  // ----- what every run keeps -----

  ghost function HoldersOf(holders: map<Holder, Address>, a: Address): set<Holder> {
    set h | h in holders && holders[h] == a
  }

  /** How many references to `a` are in use. */
  ghost function References<T>(s: State<T>, a: Address): nat {
    (if s.committed == a then 1 else 0) + (if s.draft == Some(a) then 1 else 0) + |HoldersOf(s.holders, a)|
  }

  /** Exactly the referenced allocations live, and each count is exact. */
  ghost predicate CountsAreExact<T>(s: State<T>) {
    forall a: Address :: CountIsExact(s, a)
  }

  ghost predicate CountIsExact<T>(s: State<T>, a: Address) {
    if a in s.cells then s.cells[a].count == References(s, a) > 0 else References(s, a) == 0
  }

  /** A modify in progress has the permit, and only one can have it. */
  ghost predicate OnePermit<T>(s: State<T>) {
    && (s.modifying <==> s.permits != {})
    && (forall t, u | t in s.permits && u in s.permits :: t == u)
    && (forall t | Modifier(t) in s.holders :: t in s.permits)
    && s.finished <= s.permits
  }

  ghost predicate Inv<T>(s: State<T>) {
    CountsAreExact(s) && OnePermit(s) && s.draft != Some(s.committed)
  }

  lemma ExactIsClosed<T>(s: State<T>)
    requires CountsAreExact(s)
    ensures IsClosed(s)
    ensures forall h | h in s.holders :: h in HoldersOf(s.holders, s.holders[h])
  {
    assert CountIsExact(s, s.committed);
    assert s.draft.Some? ==> CountIsExact(s, s.draft.value);
    forall h | h in s.holders
      ensures s.holders[h] in s.cells && h in HoldersOf(s.holders, s.holders[h])
    {
      assert h in HoldersOf(s.holders, s.holders[h]);
      assert CountIsExact(s, s.holders[h]);
    }
  }

  lemma HolderAdded(holders: map<Holder, Address>, h: Holder, a: Address, b: Address)
    requires h !in holders
    ensures |HoldersOf(holders[h := a], b)| == |HoldersOf(holders, b)| + (if a == b then 1 else 0)
  {
    assert HoldersOf(holders[h := a], b) == HoldersOf(holders, b) + (if a == b then {h} else {});
  }

  lemma HolderRemoved(holders: map<Holder, Address>, h: Holder, b: Address)
    requires h in holders
    ensures |HoldersOf(holders - {h}, b)| == |HoldersOf(holders, b)| - (if holders[h] == b then 1 else 0)
  {
    assert HoldersOf(holders, b) == HoldersOf(holders - {h}, b) + (if holders[h] == b then {h} else {});
  }

  lemma HeldKeepsCounts<T>(s: State<T>, h: Holder, a: Address)
    requires CountsAreExact(s) && h !in s.holders && a in s.cells
    ensures CountsAreExact(Held(s, h, a))
  {
    forall b: Address
      ensures CountIsExact(Held(s, h, a), b)
    {
      assert CountIsExact(s, b);
      HolderAdded(s.holders, h, a, b);
    }
  }

  lemma DroppedKeepsCounts<T>(s: State<T>, h: Holder)
    requires CountsAreExact(s) && h in s.holders
    ensures CountsAreExact(Dropped(s, h))
  {
    forall b: Address
      ensures CountIsExact(Dropped(s, h), b)
    {
      assert CountIsExact(s, b);
      HolderRemoved(s.holders, h, b);
    }
  }

  lemma EditedKeepsCounts<T>(s: State<T>, edited: T, spare: Address)
    requires CountsAreExact(s) && IsClosed(s) && s.draft != Some(s.committed) && spare !in s.cells
    ensures CountsAreExact(Edited(s, edited, spare)) && Edited(s, edited, spare).draft != Some(s.committed)
  {
    assert CountIsExact(s, Latest(s)) && CountIsExact(s, s.committed);
    forall b: Address
      ensures CountIsExact(Edited(s, edited, spare), b)
    {
      assert CountIsExact(s, b);
    }
  }

  lemma SettledKeepsCounts<T>(s: State<T>)
    requires CountsAreExact(s) && s.draft != Some(s.committed)
    ensures CountsAreExact(Applied(s)) && CountsAreExact(Discarded(s))
  {
    forall b: Address
      ensures CountIsExact(Applied(s), b) && CountIsExact(Discarded(s), b)
    {
      assert CountIsExact(s, b);
    }
  }

  lemma ReplacedKeepsCounts<T>(s: State<T>, value: T, spare: Address)
    requires CountsAreExact(s) && s.draft != Some(s.committed) && spare !in s.cells
    ensures CountsAreExact(Replaced(s, value, spare)) && s.draft != Some(spare)
  {
    assert CountIsExact(s, spare);
    forall b: Address
      ensures CountIsExact(Replaced(s, value, spare), b)
    {
      assert CountIsExact(s, b);
    }
  }

  /** Counts do not depend on who has the permit. */
  lemma PermitKeepsCounts<T>(s: State<T>, modifying: bool, permits: set<nat>, finished: set<nat>)
    requires CountsAreExact(s)
    ensures CountsAreExact(s.(modifying := modifying, permits := permits, finished := finished))
  {
    forall b: Address
      ensures CountIsExact(s.(modifying := modifying, permits := permits, finished := finished), b)
    {
      assert CountIsExact(s, b);
    }
  }

  lemma NextKeepsInv<T>(s: State<T>, l: Label<T>)
    requires Inv(s) && Enabled(s, l)
    ensures IsClosed(s) && Inv(Next(s, l))
  {
    ExactIsClosed(s);
    match l {
      case DataArc(reader) => HeldKeepsCounts(s, reader, s.committed);
      case LatestArc(reader) => HeldKeepsCounts(s, reader, Latest(s));
      case CloneArc(source, reader) => HeldKeepsCounts(s, reader, s.holders[source]);
      case DropArc(reader) => DroppedKeepsCounts(s, reader);
      case EditDraft(edited, spare) => EditedKeepsCounts(s, edited, spare);
      case Apply => SettledKeepsCounts(s);
      case Discard => SettledKeepsCounts(s);
      case Acquire(task) => PermitKeepsCounts(s, true, s.permits + {task}, s.finished);
      case ReadCommitted(task) => HeldKeepsCounts(s, Modifier(task), s.committed);
      case CommitModify(task, value, spare) =>
        if Succeeds(s, task) { ReplacedKeepsCounts(s, value, spare); }
        var s' := if Succeeds(s, task) then Replaced(s, value, spare) else s;
        PermitKeepsCounts(s', s.modifying, s.permits, s.finished + {task});
      case DropOriginal(task) =>
        DroppedKeepsCounts(s, Modifier(task));
        PermitKeepsCounts(Dropped(s, Modifier(task)), s.modifying, s.permits, s.finished + {task});
      case ReturnPermit(task) => PermitKeepsCounts(s, false, s.permits - {task}, s.finished - {task});
    }
  }

  // ----- the simple cell that this refines -----

  /** A cell without sharing: a committed value and perhaps a draft value. */
  datatype Plain<T> = Plain(committed: T, draft: Option<T>)

  function Meaning<T>(s: State<T>): Plain<T>
    requires IsClosed(s)
  {
    Plain(s.cells[s.committed].value, if s.draft.Some? then Some(s.cells[s.draft.value].value) else None)
  }

  function PlainNext<T>(p: Plain<T>, l: Label<T>, succeeds: bool): Plain<T> {
    match l
    case EditDraft(edited, _) => p.(draft := Some(edited))
    case Apply => if p.draft.Some? then Plain(p.draft.value, None) else p
    case Discard => p.(draft := None)
    case CommitModify(_, value, _) => if succeeds then p.(committed := value) else p
    case _ => p
  }

  /** Sharing and copy on write are invisible: every step acts as on two plain values. */
  lemma StepRefinesPlain<T>(s: State<T>, l: Label<T>)
    requires Inv(s) && Enabled(s, l)
    ensures IsClosed(s) && IsClosed(Next(s, l))
    ensures Meaning(Next(s, l)) == PlainNext(Meaning(s), l, l.CommitModify? && Succeeds(s, l.task))
  {
    NextKeepsInv(s, l);
    ExactIsClosed(s);
    ExactIsClosed(Next(s, l));
    assert CountIsExact(s, s.committed) && CountIsExact(s, Latest(s));
  }

  // ----- snapshots -----

  /** What the reference that `h` keeps shows. */
  function Shown<T>(s: State<T>, h: Holder): T
    requires IsClosed(s) && h in s.holders
  {
    s.cells[s.holders[h]].value
  }

  /** The draft where there is one, else the committed value. */
  function LatestOf<T>(p: Plain<T>): T {
    if p.draft.Some? then p.draft.value else p.committed
  }

  /** Which value a new reference shows, in terms of the plain cell. */
  lemma SnapshotShows<T>(s: State<T>, l: Label<T>)
    requires Inv(s) && Enabled(s, l)
    ensures IsClosed(s) && IsClosed(Next(s, l))
    ensures l.DataArc? ==> l.reader in Next(s, l).holders && Shown(Next(s, l), l.reader) == Meaning(s).committed
    ensures l.LatestArc? ==> l.reader in Next(s, l).holders && Shown(Next(s, l), l.reader) == LatestOf(Meaning(s))
    ensures l.CloneArc? ==> l.reader in Next(s, l).holders && Shown(Next(s, l), l.reader) == Shown(s, l.source)
    ensures l.ReadCommitted? ==>
              Modifier(l.task) in Next(s, l).holders && Shown(Next(s, l), Modifier(l.task)) == Meaning(s).committed
  {
    hide CountsAreExact, OnePermit;
    NextKeepsInv(s, l);
    ExactIsClosed(s);
    ExactIsClosed(Next(s, l));
  }

  /** Who keeps a reference after each step. */
  lemma StepHolders<T>(s: State<T>, l: Label<T>)
    requires IsClosed(s) && Enabled(s, l)
    ensures Next(s, l).holders.Keys ==
              (match l
               case DataArc(reader) => s.holders.Keys + {reader}
               case LatestArc(reader) => s.holders.Keys + {reader}
               case CloneArc(_, reader) => s.holders.Keys + {reader}
               case ReadCommitted(task) => s.holders.Keys + {Modifier(task)}
               case DropArc(reader) => s.holders.Keys - {reader}
               case DropOriginal(task) => s.holders.Keys - {Modifier(task)}
               case _ => s.holders.Keys)
  {
  }

  /** An edit happens in place exactly when there is a draft that nobody else can see. */
  lemma EditsInPlaceExactlyWhen<T>(s: State<T>, edited: T, spare: Address)
    requires Inv(s) && Enabled(s, EditDraft(edited, spare))
    ensures IsClosed(s)
    ensures Next(s, EditDraft(edited, spare)).cells.Keys == s.cells.Keys
            <==> s.draft.Some? && HoldersOf(s.holders, s.draft.value) == {}
  {
    ExactIsClosed(s);
    assert CountIsExact(s, s.committed) && CountIsExact(s, Latest(s));
    assert spare in s.cells.Keys + {spare};
  }

  /** The reference that `h` keeps is not given up by this step. */
  predicate Keeps<T>(l: Label<T>, h: Holder) {
    match l
    case DropArc(reader) => reader != h
    case DropOriginal(task) => Modifier(task) != h
    case _ => true
  }

  lemma StepKeepsSnapshot<T>(s: State<T>, l: Label<T>, h: Holder)
    requires Inv(s) && Enabled(s, l) && h in s.holders && Keeps(l, h)
    ensures IsClosed(s) && IsClosed(Next(s, l))
    ensures h in Next(s, l).holders && Next(s, l).holders[h] == s.holders[h]
    ensures Next(s, l).cells[s.holders[h]].value == s.cells[s.holders[h]].value
  {
    hide CountsAreExact, OnePermit;
    NextKeepsInv(s, l);
    ExactIsClosed(s);
    ExactIsClosed(Next(s, l));
    SharedCount(s, h);
  }

  /** A held allocation that is also committed or drafted has at least two references. */
  lemma SharedCount<T>(s: State<T>, h: Holder)
    requires CountsAreExact(s) && h in s.holders
    ensures var a := s.holders[h];
            && a in s.cells && s.cells[a].count >= 1
            && (s.committed == a || s.draft == Some(a) ==> s.cells[a].count >= 2)
  {
    var a := s.holders[h];
    assert h in HoldersOf(s.holders, a);
    assert CountIsExact(s, a);
  }

  datatype Run<T> = Run(states: seq<State<T>>, labels: seq<Label<T>>)

  ghost predicate StepAt<T>(run: Run<T>, i: nat)
    requires i < |run.labels| < |run.states|
  {
    && IsClosed(run.states[i]) && Enabled(run.states[i], run.labels[i])
    && run.states[i + 1] == Next(run.states[i], run.labels[i])
  }

  /** A run of a new cell: one allocation, no draft, no reader, no permit. */
  ghost predicate IsRun<T>(run: Run<T>) {
    && |run.states| == |run.labels| + 1
    && IsNew(run.states[0])
    && forall i | 0 <= i < |run.labels| :: StepAt(run, i)
  }

  ghost predicate IsNew<T>(s: State<T>) {
    s.committed in s.cells && s == NewCell(s.committed, s.cells[s.committed].value)
  }

  function NewCell<T>(a: Address, value: T): State<T> {
    State(map[a := Cell(value, 1)], a, None, false, {}, {}, map[])
  }

  lemma NewCellInv<T>(a: Address, value: T)
    ensures Inv(NewCell(a, value))
  {
    forall b: Address
      ensures CountIsExact(NewCell(a, value), b)
    {
      assert HoldersOf(map[], b) == {};
    }
  }

  lemma {:induction false} RunInv<T>(run: Run<T>, i: nat)
    requires IsRun(run) && i < |run.states|
    ensures Inv(run.states[i]) && IsClosed(run.states[i])
  {
    if i == 0 {
      NewCellInv(run.states[0].committed, run.states[0].cells[run.states[0].committed].value);
    } else {
      RunInv(run, i - 1);
      assert StepAt(run, i - 1);
      NextKeepsInv(run.states[i - 1], run.labels[i - 1]);
    }
    ExactIsClosed(run.states[i]);
  }

  /** A snapshot keeps its allocation and its value for as long as its holder keeps the reference. */
  lemma {:induction false} SnapshotNeverChanges<T>(run: Run<T>, i: nat, j: nat, h: Holder)
    requires IsRun(run) && i <= j < |run.states| && h in run.states[i].holders
    requires forall k | i <= k < j :: Keeps(run.labels[k], h)
    ensures h in run.states[j].holders && run.states[j].holders[h] == run.states[i].holders[h]
    ensures var a := run.states[i].holders[h];
            && a in run.states[i].cells && a in run.states[j].cells
            && run.states[j].cells[a].value == run.states[i].cells[a].value
  {
    RunInv(run, j);
    if i < j {
      SnapshotNeverChanges(run, i, j - 1, h);
      RunInv(run, j - 1);
      assert StepAt(run, j - 1);
      StepKeepsSnapshot(run.states[j - 1], run.labels[j - 1], h);
    }
  }

  /** At every moment at most one modify has the permit, and only it is in progress. */
  lemma AtMostOneModify<T>(run: Run<T>, i: nat, t: nat, u: nat)
    requires IsRun(run) && i < |run.states|
    requires t in run.states[i].permits && (u in run.states[i].permits || Modifier(u) in run.states[i].holders)
    ensures t == u && run.states[i].modifying
  {
    RunInv(run, i);
  }

  // ----- no ABA -----

  /** Neither committed nor drafted: no step can bring the allocation back while someone holds it. */
  ghost predicate IsGone<T>(s: State<T>, a: Address) {
    s.committed != a && s.draft != Some(a)
  }

  lemma StepNeverReturns<T>(s: State<T>, l: Label<T>, h: Holder)
    requires Inv(s) && Enabled(s, l) && h in s.holders
    requires IsClosed(s)
    ensures IsGone(s, s.holders[h]) ==> IsGone(Next(s, l), s.holders[h])
    ensures s.committed == s.holders[h] != Next(s, l).committed ==> IsGone(Next(s, l), s.holders[h])
  {
    assert CountIsExact(s, s.committed) && CountIsExact(s, Latest(s));
    assert h in HoldersOf(s.holders, s.holders[h]);
  }

  lemma {:induction false} StaysGone<T>(run: Run<T>, k: nat, j: nat, h: Holder)
    requires IsRun(run) && k <= j < |run.states| && h in run.states[k].holders
    requires forall m | k <= m < j :: Keeps(run.labels[m], h)
    requires IsGone(run.states[k], run.states[k].holders[h])
    ensures IsGone(run.states[j], run.states[k].holders[h])
  {
    if k < j {
      StaysGone(run, k, j - 1, h);
      SnapshotNeverChanges(run, k, j - 1, h);
      RunInv(run, j - 1);
      assert StepAt(run, j - 1);
      StepNeverReturns(run.states[j - 1], run.labels[j - 1], h);
    }
  }

  /** Once it has been replaced, the allocation that a modify read is never committed again. */
  lemma CommittedThroughout<T>(run: Run<T>, i: nat, k: nat, j: nat, h: Holder)
    requires IsRun(run) && i <= k <= j < |run.states| && h in run.states[i].holders
    requires run.states[i].committed == run.states[i].holders[h]
    requires forall m | i <= m < j :: Keeps(run.labels[m], h)
    requires run.states[j].committed == run.states[i].holders[h]
    ensures run.states[k].committed == run.states[i].holders[h]
  {
    SnapshotNeverChanges(run, i, k, h);
    NeverAway(run, i, k, h);
    if IsGone(run.states[k], run.states[i].holders[h]) {
      StaysGone(run, k, j, h);
    }
  }

  /** The allocation is committed, or it is gone. */
  lemma {:induction false} NeverAway<T>(run: Run<T>, i: nat, k: nat, h: Holder)
    requires IsRun(run) && i <= k < |run.states| && h in run.states[i].holders
    requires run.states[i].committed == run.states[i].holders[h]
    requires forall m | i <= m < k :: Keeps(run.labels[m], h)
    ensures run.states[k].committed == run.states[i].holders[h] || IsGone(run.states[k], run.states[i].holders[h])
  {
    if i < k {
      NeverAway(run, i, k - 1, h);
      SnapshotNeverChanges(run, i, k - 1, h);
      RunInv(run, k - 1);
      assert StepAt(run, k - 1);
      StepNeverReturns(run.states[k - 1], run.labels[k - 1], h);
    }
  }

  /** Over every interleaving a snapshot goes on showing what was latest, or committed, when it was taken. */
  lemma SnapshotKeepsShowing<T>(run: Run<T>, i: nat, j: nat, reader: Holder)
    requires IsRun(run) && i < j < |run.states| && run.labels[i] in {DataArc(reader), LatestArc(reader)}
    requires forall k | i < k < j :: Keeps(run.labels[k], reader)
    ensures IsClosed(run.states[i]) && IsClosed(run.states[j]) && reader in run.states[j].holders
    ensures Shown(run.states[j], reader) ==
              if run.labels[i].DataArc? then Meaning(run.states[i]).committed else LatestOf(Meaning(run.states[i]))
  {
    hide Inv, Next, Enabled, Keeps, Meaning;
    RunInv(run, i);
    RunInv(run, j);
    assert StepAt(run, i);
    SnapshotShows(run.states[i], run.labels[i]);
    SnapshotNeverChanges(run, i + 1, j, reader);
  }

  /**
   A modify whose function yields a result succeeds exactly when the allocation it read has been
   the committed one at every moment since; it then replaces that allocation, whose value is
   still the one it read, by its result.
   */
  lemma ModifyReplacesWhatItRead<T>(run: Run<T>, i: nat, j: nat, task: nat)
    requires IsRun(run) && i < j < |run.labels|
    requires run.labels[i] == ReadCommitted(task)
    requires run.labels[j].CommitModify? && run.labels[j].task == task
    requires forall k | i < k < j :: Keeps(run.labels[k], Modifier(task))
    ensures run.states[i].committed in run.states[i].cells && run.states[i].committed in run.states[j].cells
    ensures Succeeds(run.states[j], task)
            <==> forall k | i <= k <= j :: run.states[k].committed == run.states[i].committed
    ensures run.states[j].cells[run.states[i].committed].value == run.states[i].cells[run.states[i].committed].value
    ensures run.states[j + 1].committed in run.states[j + 1].cells
    ensures Succeeds(run.states[j], task) ==>
              run.states[j + 1].cells[run.states[j + 1].committed].value == run.labels[j].value
    ensures !Succeeds(run.states[j], task) ==> run.states[j + 1].committed == run.states[j].committed
  {
    var h := Modifier(task);
    RunInv(run, i);
    RunInv(run, j);
    RunInv(run, j + 1);
    assert StepAt(run, i) && StepAt(run, j);
    SnapshotNeverChanges(run, i + 1, j, h);
    StepRefinesPlain(run.states[i], run.labels[i]);
    StepRefinesPlain(run.states[j], run.labels[j]);
    if Succeeds(run.states[j], task) {
      forall k | i < k <= j
        ensures run.states[k].committed == run.states[i].committed
      {
        CommittedThroughout(run, i + 1, k, j, h);
      }
    }
  }

  // ----- the cell -----

  /** The cell with its two pointers and the permit flag; allocations and outside references are explicit. */
  class Draft<T> {
    var cells: map<Address, Cell<T>>
    var committed: Address
    var draft: Option<Address>
    var dataModifying: bool
    var permits: set<nat>
    var finished: set<nat>
    var holders: map<Holder, Address>

    ghost function View(): State<T>
      reads this
    {
      State(cells, committed, draft, dataModifying, permits, finished, holders)
    }

    ghost predicate Valid()
      reads this
    {
      Inv(View()) && IsClosed(View())
    }

    constructor (value: T, spare: Address)
      ensures Valid() && View() == NewCell(spare, value)
      ensures Meaning(View()) == Plain(value, None) && !dataModifying && holders == map[]
    {
      cells, committed, draft := map[spare := Cell(value, 1)], spare, None;
      dataModifying, permits, finished, holders := false, {}, {}, map[];
      new;
      NewCellInv(spare, value);
    }

    method Retain(a: Address)
      modifies this`cells
      ensures cells == Retained(old(cells), a)
    {
      if a in cells {
        cells := cells[a := Cell(cells[a].value, cells[a].count + 1)];
      }
    }

    method Release(a: Address)
      modifies this`cells
      ensures cells == Released(old(cells), a)
    {
      if a in cells && cells[a].count > 1 {
        cells := cells[a := Cell(cells[a].value, cells[a].count - 1)];
      } else {
        cells := cells - {a};
      }
    }

    method DataArc(reader: Holder)
      requires Valid() && Enabled(View(), Label.DataArc(reader))
      modifies this`cells, this`holders
      ensures Valid() && View() == Next(old(View()), Label.DataArc(reader))
      ensures reader in holders && Shown(View(), reader) == old(Meaning(View())).committed
      ensures Meaning(View()) == old(Meaning(View()))
    {
      SnapshotShows(View(), Label.DataArc(reader));
      StepRefinesPlain(View(), Label.DataArc(reader));
      NextKeepsInv(View(), Label.DataArc(reader));
      Retain(committed);
      holders := holders[reader := committed];
      ExactIsClosed(View());
    }

    method LatestArc(reader: Holder)
      requires Valid() && Enabled(View(), Label.LatestArc(reader))
      modifies this`cells, this`holders
      ensures Valid() && View() == Next(old(View()), Label.LatestArc(reader))
      ensures reader in holders && Shown(View(), reader) == LatestOf(old(Meaning(View())))
      ensures Meaning(View()) == old(Meaning(View()))
    {
      SnapshotShows(View(), Label.LatestArc(reader));
      StepRefinesPlain(View(), Label.LatestArc(reader));
      NextKeepsInv(View(), Label.LatestArc(reader));
      var latest := if draft.Some? then draft.value else committed;
      Retain(latest);
      holders := holders[reader := latest];
      ExactIsClosed(View());
    }

    /** Edits what readers of the latest data see next, and nothing that anyone has seen. */
    method EditDraft(f: T -> T, spare: Address)
      requires Valid() && spare !in cells
      modifies this`cells, this`draft
      ensures Valid()
      ensures var latest := old(cells)[Latest(old(View()))].value;
              View() == Next(old(View()), Label.EditDraft(f(latest), spare))
      ensures Meaning(View()) == Plain(old(Meaning(View())).committed, Some(f(LatestOf(old(Meaning(View()))))))
    {
      ghost var l := Label.EditDraft(f(cells[Latest(View())].value), spare);
      NextKeepsInv(View(), l);
      StepRefinesPlain(View(), l);
      var draftArc := committed;
      if draft.Some? {
        draftArc := draft.value;
        draft := None;
      } else {
        Retain(committed);
      }
      var edited := f(cells[draftArc].value);
      if cells[draftArc].count == 1 {
        cells := cells[draftArc := Cell(edited, 1)];
      } else {
        Release(draftArc);
        cells := cells[spare := Cell(edited, 1)];
        draftArc := spare;
      }
      draft := Some(draftArc);
      ExactIsClosed(View());
    }

    method Apply()
      requires Valid()
      modifies this`cells, this`committed, this`draft
      ensures Valid() && View() == Next(old(View()), Label.Apply)
      ensures Meaning(View()) == Plain(LatestOf(old(Meaning(View()))), None)
    {
      StepRefinesPlain(View(), Label.Apply);
      NextKeepsInv(View(), Label.Apply);
      if draft.Some? {
        Release(committed);
        committed := draft.value;
        draft := None;
      }
      ExactIsClosed(View());
    }

    method Discard()
      requires Valid()
      modifies this`cells, this`draft
      ensures Valid() && View() == Next(old(View()), Label.Discard)
      ensures Meaning(View()) == Plain(old(Meaning(View())).committed, None)
    {
      StepRefinesPlain(View(), Label.Discard);
      NextKeepsInv(View(), Label.Discard);
      if draft.Some? {
        Release(draft.value);
        draft := None;
      }
      ExactIsClosed(View());
    }

    /** The compare-and-exchange on the permit flag. */
    method TryAcquire(task: nat) returns (acquired: bool)
      requires Valid() && task !in permits
      modifies this`dataModifying, this`permits
      ensures Valid() && acquired == !old(dataModifying)
      ensures if acquired then View() == Next(old(View()), Acquire(task)) else View() == old(View())
      ensures dataModifying && (acquired ==> permits == {task})
    {
      acquired := !dataModifying;
      if acquired {
        NextKeepsInv(View(), Acquire(task));
        dataModifying, permits := true, permits + {task};
        ExactIsClosed(View());
      }
    }

    method ReadCommitted(task: nat) returns (local: T)
      requires Valid() && task in permits && task !in finished && Modifier(task) !in holders
      modifies this`cells, this`holders
      ensures Valid() && View() == Next(old(View()), Label.ReadCommitted(task))
      ensures local == old(Meaning(View())).committed && holders[Modifier(task)] == old(committed)
      ensures Meaning(View()) == old(Meaning(View()))
    {
      NextKeepsInv(View(), Label.ReadCommitted(task));
      StepRefinesPlain(View(), Label.ReadCommitted(task));
      local := cells[committed].value;
      Retain(committed);
      holders := holders[Modifier(task) := committed];
      ExactIsClosed(View());
    }

    /** The last section of a modify whose function has come back with a value. */
    method CommitModify(task: nat, value: T, spare: Address) returns (ok: bool)
      requires Valid() && Modifier(task) in holders && task !in finished && spare !in cells
      modifies this`cells, this`committed, this`finished
      ensures Valid() && View() == Next(old(View()), Label.CommitModify(task, value, spare))
      ensures ok <==> Succeeds(old(View()), task)
      ensures Meaning(View()) == (if ok then old(Meaning(View())).(committed := value) else old(Meaning(View())))
    {
      StepRefinesPlain(View(), Label.CommitModify(task, value, spare));
      NextKeepsInv(View(), Label.CommitModify(task, value, spare));
      ok := committed == holders[Modifier(task)];
      if ok {
        Release(committed);
        cells := cells[spare := Cell(value, 1)];
        committed := spare;
      }
      finished := finished + {task};
      ExactIsClosed(View());
    }

    /** The kept reference goes out of scope, after a commit, an error or a cancellation. */
    method DropOriginal(task: nat)
      requires Valid() && Modifier(task) in holders
      modifies this`cells, this`finished, this`holders
      ensures Valid() && View() == Next(old(View()), Label.DropOriginal(task))
      ensures Modifier(task) !in holders && Meaning(View()) == old(Meaning(View()))
    {
      StepRefinesPlain(View(), Label.DropOriginal(task));
      NextKeepsInv(View(), Label.DropOriginal(task));
      Release(holders[Modifier(task)]);
      holders := holders - {Modifier(task)};
      finished := finished + {task};
      ExactIsClosed(View());
    }

    /** The permit goes out of scope last, or alone when the modify is cancelled before it reads. */
    method ReturnPermit(task: nat)
      requires Valid() && task in permits && Modifier(task) !in holders
      modifies this`dataModifying, this`permits, this`finished
      ensures Valid() && View() == Next(old(View()), Label.ReturnPermit(task))
      ensures !dataModifying && permits == {}
    {
      NextKeepsInv(View(), Label.ReturnPermit(task));
      dataModifying, permits, finished := false, permits - {task}, finished - {task};
      ExactIsClosed(View());
    }
  }
}
