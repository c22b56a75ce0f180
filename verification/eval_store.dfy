/** The write-once protocol of the eval-run store: crates/remo-eval/src/eval_run.rs. Every
    file-system call is one atomic event of any number of concurrent writers and pruners; calls
    may fail and tasks may die between any two of them. */
module EvalStore {
  import opened Wrappers
  import opened Calendar

  type Shard = (int, int)

  datatype Path = Path(shard: Shard, id: string)

  datatype Run = Run(id: string, started: nat, dataset: string)

  function ShardOf(started: nat): Shard {
    YearMonthUtc(ToI64(started))
  }

  function PathOf(run: Run): Path {
    Path(ShardOf(run.started), run.id)
  }

  /** A run is stored in the directory of the Gregorian month in which it started, under its id. */
  lemma ShardIsTheMonth(run: Run, y: int, m: int)
    requires run.started <= I64_MAX && InMonth(DayOf(run.started), y, m) && FitsI32(y)
    ensures PathOf(run) == Path((y, m), run.id)
  {
    hide YearMonthUtc, InMonth;
    assert ToI64(run.started) == run.started;
    YearMonthIsGregorian(run.started, y, m);
  }

  /** `validate_run_id`: what may be used as one component of a path. */
  predicate ValidRunId(id: string) {
    id != "" && id != "." && id != ".." && '/' !in id && '\\' !in id && '\0' !in id
  }

  /** What is refused: the empty id, the two names of directories, and whatever has a separator or
      a null in it; nothing else is. */
  lemma RefusedIds(id: string, a: string, b: string)
    ensures !ValidRunId("") && !ValidRunId(".") && !ValidRunId("..")
    ensures !ValidRunId(a + "/" + b) && !ValidRunId(a + "\\" + b) && !ValidRunId(a + ['\0'] + b)
    ensures !ValidRunId(id) ==> id == "" || id == "." || id == ".." || '/' in id || '\\' in id || '\0' in id
  {
    assert (a + "/" + b)[|a|] == '/' && (a + "\\" + b)[|a|] == '\\' && (a + ['\0'] + b)[|a|] == '\0';
  }

  datatype WriteError = AlreadyExists | InvalidRun | IoError

  datatype Task =
    | Locating(run: Run, todo: set<Shard>)
    | CheckingMarker(run: Run)
    | MakingShard(run: Run)
    | Reserving(run: Run)
    | WritingTmp(run: Run)
    | Linking(run: Run)
    | DroppingTmp(run: Run)
    | AbortingTmp(run: Run, reason: WriteError)
    | AbortingMarker(run: Run, reason: WriteError)
    | WriteDone(result: Result<Run, WriteError>)
    | Scanning(cutoff: nat)
    | Removing(cutoff: nat, path: Path, seen: Run)
    | Releasing(cutoff: nat, id: string)
    | PruneDone

  datatype TmpOutcome = Written | NotCreated | NotWritten

  datatype Event =
    | StartWrite(task: nat, run: Run)
    | LocateIn(task: nat, shard: Shard)
    | LocateEnds(task: nat)
    | LocateFails(task: nat)
    | CheckMarker(task: nat, shapeValid: bool)
    | MakeShard(task: nat, ok: bool)
    | Reserve(task: nat, ok: bool)
    | WriteTmp(task: nat, outcome: TmpOutcome)
    | Link(task: nat, ok: bool)
    | DropTmp(task: nat, ok: bool)
    | AbortTmp(task: nat, ok: bool)
    | AbortMarker(task: nat, ok: bool)
    | StartPrune(task: nat, cutoff: nat)
    | ReadOld(task: nat, path: Path)
    | Remove(task: nat, ok: bool)
    | Release(task: nat, ok: bool)
    | RemoveDir(task: nat, shard: Shard)
    | EndPrune(task: nat)
    | Crash(task: nat)

  /** Markers under `.ids`, data files, temporary files by their shard and writer, shard
      directories, and the tasks under way. */
  datatype Store = Store(
    markers: set<string>,
    data: map<Path, Run>,
    tmps: set<(Shard, nat)>,
    dirs: set<Shard>,
    tasks: map<nat, Task>)

  const EMPTY := Store({}, map[], {}, {}, map[])

  function Put(s: Store, task: nat, t: Task): Store {
    s.(tasks := s.tasks[task := t])
  }

  function WriterStep(s: Store, e: Event, t: Task): Option<Store> {
    match (e, t)
    case (LocateIn(n, shard), Locating(run, todo)) =>
      if shard !in todo then None
      else if Path(shard, run.id) in s.data then Some(Put(s, n, WriteDone(Err(AlreadyExists))))
      else Some(Put(s, n, Locating(run, todo - {shard})))
    case (LocateEnds(n), Locating(run, todo)) =>
      if todo != {} then None else Some(Put(s, n, CheckingMarker(run)))
    case (LocateFails(n), Locating(run, _)) => Some(Put(s, n, CheckingMarker(run)))
    case (CheckMarker(n, shapeValid), CheckingMarker(run)) =>
      Some(Put(s, n, if run.id in s.markers then WriteDone(Err(AlreadyExists))
                     else if !shapeValid then WriteDone(Err(InvalidRun))
                     else MakingShard(run)))
    case (MakeShard(n, ok), MakingShard(run)) =>
      if !ok then Some(Put(s, n, WriteDone(Err(IoError))))
      else Some(Put(s.(dirs := s.dirs + {ShardOf(run.started)}), n, Reserving(run)))
    case (Reserve(n, ok), Reserving(run)) =>
      if !ok then Some(Put(s, n, WriteDone(Err(IoError))))
      else if run.id in s.markers then Some(Put(s, n, WriteDone(Err(AlreadyExists))))
      else Some(Put(s.(markers := s.markers + {run.id}), n, WritingTmp(run)))
    case (WriteTmp(n, outcome), WritingTmp(run)) =>
      if outcome == NotCreated then Some(Put(s, n, AbortingMarker(run, IoError)))
      else if ShardOf(run.started) !in s.dirs then None
      else Some(Put(s.(tmps := s.tmps + {(ShardOf(run.started), n)}), n,
                    if outcome == Written then Linking(run) else AbortingTmp(run, IoError)))
    case (Link(n, ok), Linking(run)) =>
      if !ok then Some(Put(s, n, AbortingTmp(run, IoError)))
      else if PathOf(run) in s.data then Some(Put(s, n, AbortingTmp(run, AlreadyExists)))
      else Some(Put(s.(data := s.data[PathOf(run) := run]), n, DroppingTmp(run)))
    case (DropTmp(n, ok), DroppingTmp(run)) =>
      Some(Put(WithoutTmp(s, run, n, ok), n, WriteDone(Ok(run))))
    case (AbortTmp(n, ok), AbortingTmp(run, reason)) =>
      Some(Put(WithoutTmp(s, run, n, ok), n, AbortingMarker(run, reason)))
    case (AbortMarker(n, ok), AbortingMarker(run, reason)) =>
      Some(Put(if ok then s.(markers := s.markers - {run.id}) else s, n, WriteDone(Err(reason))))
    case _ => None
  }

  function WithoutTmp(s: Store, run: Run, task: nat, ok: bool): Store {
    if ok then s.(tmps := s.tmps - {(ShardOf(run.started), task)}) else s
  }

  function PrunerStep(s: Store, e: Event, t: Task): Option<Store> {
    match (e, t)
    case (ReadOld(n, path), Scanning(cutoff)) =>
      if path in s.data && s.data[path].started < cutoff && s.data[path].id == path.id then
        Some(Put(s, n, Removing(cutoff, path, s.data[path])))
      else None
    case (Remove(n, ok), Removing(cutoff, path, seen)) =>
      if !ok || path !in s.data then Some(Put(s, n, PruneDone))
      else Some(Put(s.(data := s.data - {path}), n, Releasing(cutoff, seen.id)))
    case (Release(n, ok), Releasing(cutoff, id)) =>
      Some(Put(if ok then s.(markers := s.markers - {id}) else s, n, Scanning(cutoff)))
    case (RemoveDir(n, shard), Scanning(_)) =>
      if shard in s.dirs && DirEmpty(s, shard) then Some(s.(dirs := s.dirs - {shard})) else None
    case (EndPrune(n), Scanning(_)) => Some(Put(s, n, PruneDone))
    case _ => None
  }

  predicate DirEmpty(s: Store, shard: Shard) {
    (forall p :: p in s.data ==> p.shard != shard) && (forall t :: t in s.tmps ==> t.0 != shard)
  }

  function Step(s: Store, e: Event): Option<Store> {
    match e
    case StartWrite(n, run) =>
      if n in s.tasks || !ValidRunId(run.id) then None else Some(Put(s, n, Locating(run, s.dirs)))
    case StartPrune(n, cutoff) =>
      if n in s.tasks then None else Some(Put(s, n, Scanning(cutoff)))
    case _ =>
      if e.task !in s.tasks then None
      else if e.Crash? then Some(s.(tasks := s.tasks - {e.task}))
      else if WriterStep(s, e, s.tasks[e.task]).Some? then WriterStep(s, e, s.tasks[e.task])
      else PrunerStep(s, e, s.tasks[e.task])
  }

  function Execute(es: seq<Event>): Option<Store> {
    if es == [] then Some(EMPTY)
    else
      match Execute(es[..|es| - 1])
      case None => None
      case Some(s) => Step(s, es[|es| - 1])
  }

  // ---- Who owns a marker -------------------------------------------------------------------

  datatype Claim = ByTask(task: nat) | ByFile(path: Path)

  /** A writer between creating the marker and either linking or removing it again, or a pruner
      between removing the file and releasing the marker. */
  predicate TaskHolds(t: Task, id: string) {
    match t
    case WritingTmp(run) => run.id == id
    case Linking(run) => run.id == id
    case AbortingTmp(run, _) => run.id == id
    case AbortingMarker(run, _) => run.id == id
    case Releasing(_, released) => released == id
    case _ => false
  }

  predicate Claims(s: Store, id: string, c: Claim) {
    match c
    case ByTask(n) => n in s.tasks && TaskHolds(s.tasks[n], id)
    case ByFile(p) => p in s.data && p.id == id
  }

  ghost predicate MarkerInv(s: Store) {
    && (forall id, c :: Claims(s, id, c) ==> id in s.markers)
    && (forall id, c, d :: Claims(s, id, c) && Claims(s, id, d) ==> c == d)
  }

  ghost predicate FileInv(s: Store) {
    PlacedInv(s) && TaskInv(s)
  }

  ghost predicate PlacedInv(s: Store) {
    && (forall p :: p in s.data ==> p == PathOf(s.data[p]) && p.shard in s.dirs)
    && (forall t :: t in s.tmps ==> t.0 in s.dirs)
  }

  ghost predicate TaskInv(s: Store) {
    && (forall n :: n in s.tasks && s.tasks[n].Linking? ==> (ShardOf(s.tasks[n].run.started), n) in s.tmps)
    && (forall n :: n in s.tasks && s.tasks[n].Removing? ==>
          s.tasks[n].seen.id == s.tasks[n].path.id && s.tasks[n].seen.started < s.tasks[n].cutoff)
  }

  ghost predicate Inv(s: Store) {
    MarkerInv(s) && FileInv(s)
  }

  /** One task moves, at most one claim changes hands: every claim afterwards is an old one, or
      is the single new claim on `id`, whose previous holder, if any, has given it up. */
  lemma ClaimMoves(s: Store, s': Store, id: string, before: Claim, after: Claim)
    requires MarkerInv(s)
    requires forall j, c :: Claims(s', j, c) ==> (Claims(s, j, c) && c != before) || (j == id && c == after)
    requires Claims(s, id, before) || id !in s.markers
    requires Claims(s', id, after) ==> id in s'.markers || (Claims(s, id, before) && s'.markers == s.markers)
    requires forall j :: j in s.markers && j != id ==> j in s'.markers
    ensures MarkerInv(s')
  {
    forall j, c | Claims(s', j, c) ensures j in s'.markers {
      if j == id && c != after { assert Claims(s, id, before) ==> c == before; }
    }
  }

  /** Claims are only given up, and no claimed marker goes. */
  lemma ClaimsShrink(s: Store, s': Store)
    requires MarkerInv(s)
    requires forall j, c :: Claims(s', j, c) ==> Claims(s, j, c)
    requires s.markers <= s'.markers
    ensures MarkerInv(s')
  {}

  lemma WriterStepMarkers(s: Store, e: Event, n: nat)
    requires Inv(s) && n in s.tasks && WriterStep(s, e, s.tasks[n]).Some? && n == e.task
    ensures MarkerInv(WriterStep(s, e, s.tasks[n]).value)
  {
    hide ShardOf, FileInv, MarkerInv;
    var t, s' := s.tasks[n], WriterStep(s, e, s.tasks[n]).value;
    match t {
      case Reserving(run) =>
        if s'.tasks[n].WritingTmp? {
          ClaimMoves(s, s', run.id, ByTask(n), ByTask(n));
        } else {
          ClaimsShrink(s, s');
        }
      case Linking(run) =>
        if s'.tasks[n].DroppingTmp? {
          ClaimMoves(s, s', run.id, ByTask(n), ByFile(PathOf(run)));
        } else {
          ClaimsShrink(s, s');
        }
      case AbortingMarker(run, _) => ClaimMoves(s, s', run.id, ByTask(n), ByTask(n));
      case _ => ClaimsShrink(s, s');
    }
  }

  lemma WriterStepFiles(s: Store, e: Event, n: nat)
    requires Inv(s) && n in s.tasks && WriterStep(s, e, s.tasks[n]).Some? && n == e.task
    ensures FileInv(WriterStep(s, e, s.tasks[n]).value)
  {
    hide ShardOf, MarkerInv, PlacedInv;
    WriterStepPlaced(s, e, n);
  }

  lemma WriterStepPlaced(s: Store, e: Event, n: nat)
    requires FileInv(s) && n in s.tasks && WriterStep(s, e, s.tasks[n]).Some? && n == e.task
    ensures PlacedInv(WriterStep(s, e, s.tasks[n]).value)
  {
    hide ShardOf;
  }

  lemma PrunerStepInv(s: Store, e: Event, n: nat)
    requires Inv(s) && n in s.tasks && PrunerStep(s, e, s.tasks[n]).Some? && n == e.task
    ensures Inv(PrunerStep(s, e, s.tasks[n]).value)
  {
    hide ShardOf, MarkerInv;
    var t, s' := s.tasks[n], PrunerStep(s, e, s.tasks[n]).value;
    match t {
      case Removing(_, path, seen) =>
        if s'.tasks[n].Releasing? {
          ClaimMoves(s, s', seen.id, ByFile(path), ByTask(n));
        } else {
          ClaimsShrink(s, s');
        }
      case Releasing(_, id) => ClaimMoves(s, s', id, ByTask(n), ByTask(n));
      case _ => ClaimsShrink(s, s');
    }
  }

  lemma StepInv(s: Store, e: Event)
    requires Inv(s) && Step(s, e).Some?
    ensures Inv(Step(s, e).value)
  {
    hide ShardOf, WriterStep, PrunerStep;
    if !e.StartWrite? && !e.StartPrune? && !e.Crash? {
      if WriterStep(s, e, s.tasks[e.task]).Some? {
        WriterStepMarkers(s, e, e.task);
        WriterStepFiles(s, e, e.task);
      } else {
        PrunerStepInv(s, e, e.task);
      }
    } else {
      ClaimsShrink(s, Step(s, e).value);
    }
  }

  lemma {:induction false} ExecuteInv(es: seq<Event>)
    requires Execute(es).Some?
    ensures Inv(Execute(es).value)
  {
    hide Step;
    if es == [] {
    } else {
      ExecuteInv(es[..|es| - 1]);
      StepInv(Execute(es[..|es| - 1]).value, es[|es| - 1]);
    }
  }

  // ---- Theorems over every history ---------------------------------------------------------

  /** At most one data file per run id, across all shards. */
  lemma OneFilePerId(es: seq<Event>, p: Path, q: Path)
    requires Execute(es).Some? && p in Execute(es).value.data && q in Execute(es).value.data
    requires p.id == q.id
    ensures p == q
  {
    hide ShardOf, Step;
    ExecuteInv(es);
    assert Claims(Execute(es).value, p.id, ByFile(p)) && Claims(Execute(es).value, p.id, ByFile(q));
  }

  /** A data file exists only while its marker does; it sits where its content says. */
  lemma FileHasMarker(es: seq<Event>, p: Path)
    requires Execute(es).Some? && p in Execute(es).value.data
    ensures p.id in Execute(es).value.markers
    ensures p == PathOf(Execute(es).value.data[p]) && p.shard in Execute(es).value.dirs
  {
    hide ShardOf, Step;
    ExecuteInv(es);
    assert Claims(Execute(es).value, p.id, ByFile(p));
  }

  /** A marker is never shared: whoever holds it, no other task and no file does. */
  lemma MarkerHasOneOwner(es: seq<Event>, id: string, c: Claim, d: Claim)
    requires Execute(es).Some? && Claims(Execute(es).value, id, c) && Claims(Execute(es).value, id, d)
    ensures c == d && id in Execute(es).value.markers
  {
    hide ShardOf, Step;
    ExecuteInv(es);
  }

  /** Events after which a marker can be left with no owner. */
  predicate Loses(e: Event) {
    e.Crash? || (e.AbortMarker? && !e.ok) || (e.Release? && !e.ok)
  }

  lemma StepKeepsOwned(s: Store, e: Event)
    requires Inv(s) && Step(s, e).Some? && !Loses(e)
    requires forall id :: id in s.markers ==> exists c :: Claims(s, id, c)
    ensures forall id :: id in Step(s, e).value.markers ==> exists c :: Claims(Step(s, e).value, id, c)
  {
    hide ShardOf, MarkerInv;
    var s' := Step(s, e).value;
    forall id | id in s'.markers ensures exists c :: Claims(s', id, c) {
      if id !in s.markers {
        assert Claims(s', id, ByTask(e.task));
      } else {
        var c :| Claims(s, id, c);
        if e.Link? && c == ByTask(e.task) && s'.tasks[e.task].DroppingTmp? {
          assert Claims(s', id, ByFile(PathOf(s.tasks[e.task].run)));
        } else if e.Remove? && c.ByFile? && c.path !in s'.data {
          assert Claims(s', id, ByTask(e.task));
        } else if !Claims(s', id, c) {
          OtherOwner(s, e, id, c);
        }
      }
    }
  }

  /** A claim that ends other than by moving on took its marker with it. */
  lemma OtherOwner(s: Store, e: Event, id: string, c: Claim)
    requires Step(s, e).Some? && !Loses(e) && Claims(s, id, c) && !Claims(Step(s, e).value, id, c)
    requires !(e.Link? && c == ByTask(e.task) && Step(s, e).value.tasks[e.task].DroppingTmp?)
    requires !(e.Remove? && c.ByFile?)
    ensures id !in Step(s, e).value.markers
  {
    hide ShardOf;
  }

  /** While no task dies and every clean-up succeeds, each marker has an owner. */
  lemma {:induction false} NoOrphans(es: seq<Event>)
    requires Execute(es).Some? && forall i :: 0 <= i < |es| ==> !Loses(es[i])
    ensures forall id :: id in Execute(es).value.markers <==> exists c :: Claims(Execute(es).value, id, c)
  {
    hide Step, ShardOf;
    if es == [] {
    } else {
      var init := es[..|es| - 1];
      NoOrphans(init);
      ExecuteInv(init);
      StepKeepsOwned(Execute(init).value, es[|es| - 1]);
    }
    ExecuteInv(es);
  }

  lemma FileExcludesHolder(s: Store, p: Path, n: nat)
    requires MarkerInv(s) && p in s.data && n in s.tasks
    ensures !TaskHolds(s.tasks[n], p.id)
  {
    assert Claims(s, p.id, ByFile(p));
    assert Claims(s, p.id, ByTask(n)) <==> TaskHolds(s.tasks[n], p.id);
  }

  /** The hard link never meets an existing file: the marker has already excluded it. */
  lemma LinkNeverCollides(es: seq<Event>, n: nat)
    requires Execute(es).Some? && n in Execute(es).value.tasks && Execute(es).value.tasks[n].Linking?
    ensures PathOf(Execute(es).value.tasks[n].run) !in Execute(es).value.data
  {
    hide ShardOf, Step, MarkerInv;
    ExecuteInv(es);
    var s := Execute(es).value;
    forall p | p in s.data ensures p.id != s.tasks[n].run.id {
      FileExcludesHolder(s, p, n);
    }
  }

  /** Event `i` commits a run to path `p`. */
  ghost predicate CommitsAt(es: seq<Event>, i: nat, p: Path) {
    && i < |es| && Execute(es[..i + 1]).Some? && Execute(es[..i]).Some?
    && p !in Execute(es[..i]).value.data && p in Execute(es[..i + 1]).value.data
  }

  /** Event `i` removes the file at `p`. */
  ghost predicate RemovesAt(es: seq<Event>, i: nat, p: Path) {
    && i < |es| && Execute(es[..i + 1]).Some? && Execute(es[..i]).Some?
    && p in Execute(es[..i]).value.data && p !in Execute(es[..i + 1]).value.data
  }

  lemma {:induction false} ExecutePrefix(es: seq<Event>, n: nat)
    requires Execute(es).Some? && n <= |es|
    ensures Execute(es[..n]).Some?
    decreases |es|
  {
    hide Step;
    if n < |es| {
      assert es[..|es| - 1][..n] == es[..n];
      ExecutePrefix(es[..|es| - 1], n);
    } else {
      assert es[..n] == es;
    }
  }

  lemma ExecuteNext(es: seq<Event>, n: nat)
    requires Execute(es).Some? && n < |es|
    ensures Execute(es[..n]).Some? && Execute(es[..n + 1]) == Step(Execute(es[..n]).value, es[n])
  {
    hide Step;
    ExecutePrefix(es, n);
    ExecutePrefix(es, n + 1);
    assert es[..n + 1][..n] == es[..n];
  }

  /** A file that is gone was removed by some event in between. */
  lemma {:induction false} RemovedBetween(es: seq<Event>, i: nat, j: nat, p: Path)
    requires Execute(es).Some? && i <= j <= |es|
    requires Execute(es[..i]).Some? && p in Execute(es[..i]).value.data
    requires Execute(es[..j]).Some? && p !in Execute(es[..j]).value.data
    ensures exists k :: i <= k < j && RemovesAt(es, k, p)
    decreases j - i
  {
    hide Step;
    ExecuteNext(es, j - 1);
    if !RemovesAt(es, j - 1, p) {
      RemovedBetween(es, i, j - 1, p);
    }
  }

  /** Only a pruner that has read the path removes a data file. */
  lemma RemovalIsAPruners(s: Store, e: Event, p: Path)
    requires Step(s, e).Some? && p in s.data && p !in Step(s, e).value.data
    ensures e.Remove? && e.task in s.tasks && s.tasks[e.task].Removing? && s.tasks[e.task].path == p
  {
    hide ShardOf;
  }

  /** Only linking creates a data file, and only for the run id its task reserved. */
  lemma CommitNeedsMarker(s: Store, e: Event, p: Path)
    requires Step(s, e).Some? && p !in s.data && p in Step(s, e).value.data
    ensures e.Link? && e.task in s.tasks && Claims(s, p.id, ByTask(e.task))
  {
    hide ShardOf;
  }

  /** A writer that has looked for the marker and found the run well formed. */
  predicate PastChecks(t: Task) {
    t.MakingShard? || t.Reserving? || t.WritingTmp? || t.Linking? || t.DroppingTmp?
  }

  lemma StepPastChecks(s: Store, e: Event, n: nat)
    requires Step(s, e).Some? && n in Step(s, e).value.tasks && PastChecks(Step(s, e).value.tasks[n])
    ensures (n in s.tasks && PastChecks(s.tasks[n])) || e == CheckMarker(n, true)
  {
    hide ShardOf;
  }

  lemma {:induction false} PastChecksWereMade(es: seq<Event>, n: nat)
    requires Execute(es).Some? && n in Execute(es).value.tasks && PastChecks(Execute(es).value.tasks[n])
    ensures exists j :: 0 <= j < |es| && es[j] == CheckMarker(n, true)
  {
    hide Step;
    if es == [] {
    } else {
      var init := es[..|es| - 1];
      StepPastChecks(Execute(init).value, es[|es| - 1], n);
      if n in Execute(init).value.tasks && PastChecks(Execute(init).value.tasks[n]) {
        PastChecksWereMade(init, n);
        var j :| 0 <= j < |init| && init[j] == CheckMarker(n, true);
        assert es[j] == CheckMarker(n, true);
      } else {
        assert es[|es| - 1] == CheckMarker(n, true);
      }
    }
  }

  lemma CommitterIsPastChecks(s: Store, e: Event, p: Path)
    requires Step(s, e).Some? && p !in s.data && p in Step(s, e).value.data
    ensures e.task in s.tasks && PastChecks(s.tasks[e.task])
  {
    hide ShardOf;
  }

  /** A run whose shape is not valid is never committed: each commit follows a successful check by
      its own task. */
  lemma CommitNeedsValidRun(es: seq<Event>, i: nat, p: Path)
    requires Execute(es).Some? && CommitsAt(es, i, p)
    ensures exists j :: 0 <= j < i && es[j] == CheckMarker(es[i].task, true)
  {
    hide Step;
    ExecuteNext(es, i);
    CommitterIsPastChecks(Execute(es[..i]).value, es[i], p);
    PastChecksWereMade(es[..i], es[i].task);
    var j :| 0 <= j < i && es[..i][j] == CheckMarker(es[i].task, true);
    assert es[j] == CheckMarker(es[i].task, true);
  }

  /** Write once: between two commits of one run id, to whichever shards, some prune removed the
      file of the first. */
  lemma {:induction false} RewritesNeedAPrune(es: seq<Event>, i: nat, j: nat, p: Path, q: Path)
    requires Execute(es).Some? && i < j && CommitsAt(es, i, p) && CommitsAt(es, j, q) && p.id == q.id
    ensures exists k :: i < k < j && RemovesAt(es, k, p) && es[k].Remove?
  {
    hide Step, ShardOf, MarkerInv;
    ExecuteNext(es, j);
    var s := Execute(es[..j]).value;
    CommitNeedsMarker(s, es[j], q);
    ExecuteInv(es[..j]);
    if p in s.data { FileExcludesHolder(s, p, es[j].task); }
    RemovedBetween(es, i + 1, j, p);
    var k :| i + 1 <= k < j && RemovesAt(es, k, p);
    ExecuteNext(es, k);
    RemovalIsAPruners(Execute(es[..k]).value, es[k], p);
  }

  lemma StepKeepsContent(s: Store, e: Event, p: Path)
    requires Step(s, e).Some? && p in s.data && p in Step(s, e).value.data
    ensures Step(s, e).value.data[p] == s.data[p]
  {
    hide ShardOf;
  }

  /** A committed file never changes: until something removes it, it holds the run that was
      written. In particular a pruner removes what it read unless another removal came between. */
  lemma {:induction false} CommittedNeverChanges(es: seq<Event>, i: nat, j: nat, p: Path)
    requires Execute(es).Some? && i <= j <= |es|
    requires Execute(es[..i]).Some? && p in Execute(es[..i]).value.data
    requires forall k :: i <= k < j ==> !RemovesAt(es, k, p)
    ensures Execute(es[..j]).Some? && p in Execute(es[..j]).value.data
    ensures Execute(es[..j]).value.data[p] == Execute(es[..i]).value.data[p]
    decreases j - i
  {
    hide Step;
    if i < j {
      CommittedNeverChanges(es, i, j - 1, p);
      ExecuteNext(es, j - 1);
      ExecutePrefix(es, j);
      assert Execute(es[..j - 1 + 1]) == Execute(es[..j]);
      assert !RemovesAt(es, j - 1, p);
      StepKeepsContent(Execute(es[..j - 1]).value, es[j - 1], p);
    }
  }

  // ---- What a prune removes ----------------------------------------------------------------

  /** Event `i` commits a run to path `p` that is not older than the cut-off. */
  ghost predicate CommitsNewAt(es: seq<Event>, i: nat, p: Path, cutoff: nat) {
    CommitsAt(es, i, p) && Execute(es[..i + 1]).value.data[p].started >= cutoff
  }

  ghost predicate NeverRemoved(es: seq<Event>, i: nat, j: nat, p: Path) {
    forall k :: i <= k < j ==> !RemovesAt(es, k, p)
  }

  /** What a file holds, it got by a commit that nothing has removed since. */
  lemma {:induction false} ChangedByCommit(es: seq<Event>, i: nat, j: nat, p: Path)
    requires Execute(es).Some? && i <= j <= |es|
    requires Execute(es[..i]).Some? && Execute(es[..j]).Some?
    requires p in Execute(es[..j]).value.data
    requires p !in Execute(es[..i]).value.data || Execute(es[..i]).value.data[p] != Execute(es[..j]).value.data[p]
    ensures exists k :: i <= k < j && CommitsAt(es, k, p) && NeverRemoved(es, k + 1, j, p)
                        && Execute(es[..k + 1]).value.data[p] == Execute(es[..j]).value.data[p]
    decreases j - i
  {
    hide Step, Execute;
    ExecuteNext(es, j - 1);
    assert es[..j - 1 + 1] == es[..j];
    if p !in Execute(es[..j - 1]).value.data {
      assert CommitsAt(es, j - 1, p) && NeverRemoved(es, j, j, p);
    } else {
      StepKeepsContent(Execute(es[..j - 1]).value, es[j - 1], p);
      ChangedByCommit(es, i, j - 1, p);
      var k :| i <= k < j - 1 && CommitsAt(es, k, p) && NeverRemoved(es, k + 1, j - 1, p)
               && Execute(es[..k + 1]).value.data[p] == Execute(es[..j - 1]).value.data[p];
      assert NeverRemoved(es, k + 1, j, p);
    }
  }

  /** Event `i` is a pruner's reading of an old file, which the same prune is about to remove at
      the state after `j` events. */
  ghost predicate ReadThenRemoves(es: seq<Event>, i: nat, j: nat, n: nat, cutoff: nat, p: Path) {
    && i < j <= |es| && es[i] == ReadOld(n, p)
    && Execute(es[..i]).Some? && n in Execute(es[..i]).value.tasks
    && Execute(es[..i]).value.tasks[n] == Scanning(cutoff)
    && Execute(es[..j]).Some? && n in Execute(es[..j]).value.tasks
    && Execute(es[..j]).value.tasks[n].Removing?
    && Execute(es[..j]).value.tasks[n].cutoff == cutoff && Execute(es[..j]).value.tasks[n].path == p
  }

  lemma ReadIsOld(es: seq<Event>, i: nat, j: nat, n: nat, cutoff: nat, p: Path)
    requires Execute(es).Some? && ReadThenRemoves(es, i, j, n, cutoff, p)
    ensures Execute(es[..i + 1]).Some?
    ensures p in Execute(es[..i]).value.data && Execute(es[..i + 1]).value.data == Execute(es[..i]).value.data
    ensures Execute(es[..i]).value.data[p].started < cutoff
  {
    hide ShardOf, Execute;
    ExecuteNext(es, i);
    ExecutePrefix(es, i + 1);
  }

  /** At the state after `j` events the file at `p` is not older than the cut-off. */
  ghost predicate HoldsNew(es: seq<Event>, j: nat, p: Path, cutoff: nat) {
    && j <= |es| && Execute(es[..j]).Some?
    && p in Execute(es[..j]).value.data && Execute(es[..j]).value.data[p].started >= cutoff
  }

  lemma AboutToRemoveNew(es: seq<Event>, i: nat, j: nat, n: nat, cutoff: nat, p: Path)
    requires ReadThenRemoves(es, i, j, n, cutoff, p)
    ensures RemovesNewRun(Execute(es[..j]).value, n) <==> HoldsNew(es, j, p, cutoff)
  {
    hide Execute;
  }

  lemma NewByCommit(es: seq<Event>, i: nat, j: nat, p: Path, cutoff: nat)
    requires Execute(es).Some? && i <= j && HoldsNew(es, j, p, cutoff) && Execute(es[..i]).Some?
    requires p in Execute(es[..i]).value.data && Execute(es[..i]).value.data[p].started < cutoff
    ensures exists k :: i <= k < j && CommitsNewAt(es, k, p, cutoff) && NeverRemoved(es, k + 1, j, p)
  {
    hide Step, Execute, NeverRemoved;
    ChangedByCommit(es, i, j, p);
    var k :| i <= k < j && CommitsAt(es, k, p) && NeverRemoved(es, k + 1, j, p)
             && Execute(es[..k + 1]).value.data[p] == Execute(es[..j]).value.data[p];
    assert CommitsNewAt(es, k, p, cutoff);
  }

  lemma NewStays(es: seq<Event>, k: nat, j: nat, p: Path, cutoff: nat)
    requires Execute(es).Some? && k < j <= |es|
    requires CommitsNewAt(es, k, p, cutoff) && NeverRemoved(es, k + 1, j, p)
    ensures HoldsNew(es, j, p, cutoff)
  {
    hide Step, Execute;
    CommittedNeverChanges(es, k + 1, j, p);
  }

  /** The file a pruner is about to remove is not older than its cut-off exactly when, since the
      pruner read the path, another run was committed there that is not, and has stayed. */
  lemma PruneRemovesNewIff(es: seq<Event>, i: nat, j: nat, n: nat, cutoff: nat, p: Path)
    requires Execute(es).Some? && ReadThenRemoves(es, i, j, n, cutoff, p)
    ensures RemovesNewRun(Execute(es[..j]).value, n)
            <==> exists k :: i < k < j && CommitsNewAt(es, k, p, cutoff) && NeverRemoved(es, k + 1, j, p)
  {
    hide Step, Execute, RemovesNewRun, HoldsNew, CommitsNewAt, NeverRemoved;
    ReadIsOld(es, i, j, n, cutoff, p);
    AboutToRemoveNew(es, i, j, n, cutoff, p);
    if HoldsNew(es, j, p, cutoff) { NewByCommit(es, i + 1, j, p, cutoff); }
    forall k | i < k < j && CommitsNewAt(es, k, p, cutoff) && NeverRemoved(es, k + 1, j, p)
      ensures HoldsNew(es, j, p, cutoff)
    {
      NewStays(es, k, j, p, cutoff);
    }
  }

  /** Before that commit some other pruner removed the file that had been read. */
  lemma NewRunNeedsAnotherPruner(es: seq<Event>, i: nat, j: nat, n: nat, cutoff: nat, p: Path)
    requires Execute(es).Some? && ReadThenRemoves(es, i, j, n, cutoff, p)
    requires RemovesNewRun(Execute(es[..j]).value, n)
    ensures exists m :: i < m < j && RemovesAt(es, m, p) && es[m].Remove?
  {
    hide Step;
    ReadIsOld(es, i, j, n, cutoff, p);
    if NeverRemoved(es, i + 1, j, p) {
      CommittedNeverChanges(es, i + 1, j, p);
    }
    var m :| i + 1 <= m < j && RemovesAt(es, m, p);
    ExecuteNext(es, m);
    RemovalIsAPruners(Execute(es[..m]).value, es[m], p);
  }

  /** No two pruners are about to remove one file. */
  ghost predicate OneRemoverPerFile(s: Store) {
    forall m, n ::
      (m in s.tasks && n in s.tasks && s.tasks[m].Removing? && s.tasks[n].Removing?
       && s.tasks[m].path == s.tasks[n].path) ==> m == n
  }

  /** The file a pruner is about to remove is the one it read. */
  ghost predicate SeenIsThere(s: Store) {
    forall n :: n in s.tasks && s.tasks[n].Removing? ==>
      s.tasks[n].path in s.data && s.data[s.tasks[n].path] == s.tasks[n].seen
  }

  lemma NowRemoving(s: Store, e: Event, n: nat)
    requires Step(s, e).Some? && n in Step(s, e).value.tasks && Step(s, e).value.tasks[n].Removing?
    ensures var t := Step(s, e).value.tasks[n];
            || (n in s.tasks && s.tasks[n] == t)
            || (Step(s, e).value.data == s.data && t.path in s.data && s.data[t.path] == t.seen)
  {
    hide ShardOf;
  }

  lemma StepSeen(s: Store, e: Event)
    requires Step(s, e).Some? && SeenIsThere(s) && OneRemoverPerFile(s)
    ensures SeenIsThere(Step(s, e).value)
  {
    hide Step, OneRemoverPerFile;
    var s' := Step(s, e).value;
    forall n | n in s'.tasks && s'.tasks[n].Removing?
      ensures s'.tasks[n].path in s'.data && s'.data[s'.tasks[n].path] == s'.tasks[n].seen
    {
      NowRemoving(s, e, n);
      if n in s.tasks && s.tasks[n] == s'.tasks[n] { FileStays(s, e, n); }
    }
  }

  /** Only the pruner that is about to remove a file can take it away. */
  lemma FileStays(s: Store, e: Event, n: nat)
    requires Step(s, e).Some? && n in s.tasks && s.tasks[n].Removing?
    requires n in Step(s, e).value.tasks && Step(s, e).value.tasks[n] == s.tasks[n]
    requires OneRemoverPerFile(s) && s.tasks[n].path in s.data
    ensures var p := s.tasks[n].path;
            p in Step(s, e).value.data && Step(s, e).value.data[p] == s.data[p]
  {
    hide ShardOf;
    var p := s.tasks[n].path;
    if p in Step(s, e).value.data {
      StepKeepsContent(s, e, p);
    } else {
      RemovalIsAPruners(s, e, p);
    }
  }

  lemma {:induction false} SeenStays(es: seq<Event>)
    requires Execute(es).Some?
    requires forall n :: 0 <= n <= |es| && Execute(es[..n]).Some? ==> OneRemoverPerFile(Execute(es[..n]).value)
    ensures SeenIsThere(Execute(es).value)
  {
    hide Step, ShardOf, OneRemoverPerFile;
    if es == [] {
    } else {
      var init := es[..|es| - 1];
      forall n | 0 <= n <= |init| && Execute(init[..n]).Some?
        ensures OneRemoverPerFile(Execute(init[..n]).value)
      {
        assert init[..n] == es[..n];
      }
      SeenStays(init);
      assert init == es[..|es| - 1] && Execute(es[..|es| - 1]).Some?;
      StepSeen(Execute(init).value, es[|es| - 1]);
    }
  }

  /** Task `n` is about to remove a file that does not satisfy its cut-off. */
  ghost predicate RemovesNewRun(s: Store, n: nat) {
    && n in s.tasks && s.tasks[n].Removing?
    && s.tasks[n].path in s.data && s.data[s.tasks[n].path].started >= s.tasks[n].cutoff
  }

  /** As long as no two prunes, however they overlap, reach for one file together, each removes
      only runs that started before its cut-off. */
  lemma OneRemoverRemovesOnlyOld(es: seq<Event>, n: nat)
    requires Execute(es).Some?
    requires forall k :: 0 <= k <= |es| && Execute(es[..k]).Some? ==> OneRemoverPerFile(Execute(es[..k]).value)
    requires n in Execute(es).value.tasks && Execute(es).value.tasks[n].Removing?
    ensures var t := Execute(es).value.tasks[n];
            t.path in Execute(es).value.data && Execute(es).value.data[t.path].started < t.cutoff
  {
    hide Step, ShardOf, OneRemoverPerFile;
    SeenStays(es);
    ExecuteInv(es);
  }

  // ---- Two pruners at one file -------------------------------------------------------------

  lemma Extend(es: seq<Event>, s: Store, e: Event) returns (es': seq<Event>, s': Store)
    requires Execute(es) == Some(s) && Step(s, e).Some?
    ensures Execute(es') == Some(s') && s' == Step(s, e).value && es <= es'
  {
    es', s' := es + [e], Step(s, e).value;
    assert es'[..|es|] == es;
  }

  /** The search of a write for an id that no shard holds. */
  lemma {:induction false} LocateNothing(es: seq<Event>, s: Store, n: nat, run: Run, todo: set<Shard>)
    returns (es': seq<Event>, s': Store)
    requires Execute(es) == Some(s) && n in s.tasks && s.tasks[n] == Locating(run, todo)
    requires forall p :: p in s.data ==> p.id != run.id
    ensures Execute(es') == Some(s') && es <= es'
    ensures s' == s.(tasks := s.tasks[n := CheckingMarker(run)])
    decreases |todo|
  {
    hide ShardOf, Execute, PrunerStep;
    if todo == {} {
      es', s' := Extend(es, s, LocateEnds(n));
    } else {
      var shard :| shard in todo;
      es', s' := Extend(es, s, LocateIn(n, shard));
      es', s' := LocateNothing(es', s', n, run, todo - {shard});
      assert s' == s.(tasks := s.tasks[n := CheckingMarker(run)]);
    }
  }

  lemma ChecksAlone(es: seq<Event>, s: Store, n: nat, run: Run) returns (es': seq<Event>, s': Store)
    requires Execute(es) == Some(s) && n !in s.tasks && ValidRunId(run.id)
    requires run.id !in s.markers && forall p :: p in s.data ==> p.id != run.id
    ensures Execute(es') == Some(s') && es <= es'
    ensures s' == s.(dirs := s.dirs + {ShardOf(run.started)}, tasks := s.tasks[n := Reserving(run)])
  {
    hide ShardOf, Execute, PrunerStep;
    es', s' := Extend(es, s, StartWrite(n, run));
    es', s' := LocateNothing(es', s', n, run, s.dirs);
    es', s' := Extend(es', s', CheckMarker(n, true));
    es', s' := Extend(es', s', MakeShard(n, true));
    assert s'.tasks == s.tasks[n := Reserving(run)];
  }

  /** A whole undisturbed write of an id that has neither marker nor file. */
  lemma WriteAlone(es: seq<Event>, s: Store, n: nat, run: Run) returns (es': seq<Event>, s': Store)
    requires Execute(es) == Some(s) && n !in s.tasks && ValidRunId(run.id)
    requires run.id !in s.markers && forall p :: p in s.data ==> p.id != run.id
    ensures Execute(es') == Some(s') && es <= es'
    ensures s'.data == s.data[PathOf(run) := run] && s'.markers == s.markers + {run.id}
    ensures s'.tasks == s.tasks[n := DroppingTmp(run)]
  {
    hide ShardOf, Execute, PrunerStep;
    es', s' := ChecksAlone(es, s, n, run);
    es', s' := Extend(es', s', Reserve(n, true));
    es', s' := Extend(es', s', WriteTmp(n, Written));
    es', s' := Extend(es', s', Link(n, true));
    assert s'.tasks == s.tasks[n := DroppingTmp(run)];
  }

  lemma PrunerActs(s: Store, e: Event)
    requires e.ReadOld? || e.Remove? || e.Release?
    requires e.task in s.tasks
    ensures WriterStep(s, e, s.tasks[e.task]) == None
  {}

  /** One of two pruners removes the file and releases its id. */
  lemma FirstRemoves(es: seq<Event>, s: Store, m: nat, p: Path) returns (es': seq<Event>, s': Store)
    requires Execute(es) == Some(s) && p in s.data
    requires m in s.tasks && s.tasks[m].Removing? && s.tasks[m].path == p
    ensures Execute(es') == Some(s') && es <= es'
    ensures s' == s.(data := s.data - {p}, markers := s.markers - {s.tasks[m].seen.id},
                     tasks := s.tasks[m := Scanning(s.tasks[m].cutoff)])
  {
    hide ShardOf, Execute, WriterStep;
    PrunerActs(s, Remove(m, true));
    es', s' := Extend(es, s, Remove(m, true));
    PrunerActs(s', Release(m, true));
    es', s' := Extend(es', s', Release(m, true));
    assert s'.tasks == s.tasks[m := Scanning(s.tasks[m].cutoff)];
  }

  lemma {:induction false} UnusedTask(used: set<nat>) returns (n: nat)
    ensures n !in used && forall m :: m in used ==> m < n
  {
    if used == {} {
      n := 0;
    } else {
      var m :| m in used;
      n := UnusedTask(used - {m});
      n := if m < n then n else m + 1;
      assert forall k :: k in used ==> k == m || k in used - {m};
    }
  }

  /** From every reachable state in which two pruners are about to remove one file, the store can
      go on so that the second removes whatever run is written at that path in between, however
      new. */
  lemma TwoRemoversReachANewRun(es: seq<Event>, s: Store, m: nat, n: nat, run: Run)
    returns (es': seq<Event>, s': Store)
    requires Execute(es) == Some(s) && m != n && m in s.tasks && n in s.tasks
    requires s.tasks[m].Removing? && s.tasks[n].Removing?
    requires s.tasks[m].path == s.tasks[n].path == PathOf(run) && PathOf(run) in s.data
    requires ValidRunId(run.id) && run.started >= s.tasks[n].cutoff
    ensures es <= es' && Execute(es') == Some(s') && RemovesNewRun(s', n)
    ensures PathOf(run) in s'.data && s'.data[PathOf(run)] == run
  {
    hide ShardOf, Step, Execute, MarkerInv;
    var p := PathOf(run);
    ExecuteInv(es);
    forall q | q in s.data && q.id == p.id ensures q == p { OneFilePerId(es, p, q); }
    es', s' := FirstRemoves(es, s, m, p);
    var w := UnusedTask(s'.tasks.Keys);
    es', s' := WriteAlone(es', s', w, run);
    assert w != n && s'.tasks[n] == s.tasks[n];
  }

  /** A pruner reads an old file. */
  lemma ReadsOne(es: seq<Event>, s: Store, n: nat, p: Path, cutoff: nat) returns (es': seq<Event>, s': Store)
    requires Execute(es) == Some(s) && n !in s.tasks
    requires p in s.data && s.data[p].started < cutoff && s.data[p].id == p.id
    ensures Execute(es') == Some(s') && es <= es'
    ensures s' == s.(tasks := s.tasks[n := Removing(cutoff, p, s.data[p])])
  {
    hide ShardOf, Execute, WriterStep;
    es', s' := Extend(es, s, StartPrune(n, cutoff));
    PrunerActs(s', ReadOld(n, p));
    es', s' := Extend(es', s', ReadOld(n, p));
    assert s'.tasks == s.tasks[n := Removing(cutoff, p, s.data[p])];
  }

  /** Two overlapping prunes can remove a run that is newer than their cut-off, whichever runs of
      one id and month lie on either side of it. */
  lemma OverlappingPrunesRemoveANewRun(first: Run, second: Run, cutoff: nat)
    returns (es: seq<Event>, s: Store)
    requires PathOf(first) == PathOf(second) && ValidRunId(first.id)
    requires first.started < cutoff <= second.started
    ensures Execute(es) == Some(s) && RemovesNewRun(s, 2)
    ensures PathOf(second) in s.data && s.data[PathOf(second)] == second
  {
    hide ShardOf, Execute, Step;
    EmptyHistory();
    es, s := WriteAlone([], EMPTY, 0, first);
    es, s := ReadsOne(es, s, 1, PathOf(first), cutoff);
    es, s := ReadsOne(es, s, 2, PathOf(first), cutoff);
    es, s := TwoRemoversReachANewRun(es, s, 1, 2, second);
  }

  /** Runs of one id that began on one day have one path. */
  lemma SameDaySamePath(id: string, a: nat, b: nat, first: string, second: string)
    requires a <= I64_MAX && b <= I64_MAX && a / 86400 == b / 86400
    ensures PathOf(Run(id, a, first)) == PathOf(Run(id, b, second))
  {
    hide YearMonthUtc;
    assert ToI64(a) == a && ToI64(b) == b;
    DayDecidesMonth(a, b);
  }

  lemma EmptyHistory()
    ensures Execute([]) == Some(EMPTY)
  {}
}
