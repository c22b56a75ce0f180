/** The store as one caller uses it, with its loops over directories and files:
    crates/remo-eval/src/eval_run.rs. Input and output failures are left to EvalStore. */
module EvalFiles {
  import opened Wrappers
  import opened EvalStore

  /** `None` in a field means no bound. */
  datatype Filter = Filter(dataset: Option<string>, since: Option<nat>, until: Option<nat>, limit: Option<nat>)
  {
    predicate Admits(run: Run) {
      && (dataset.Some? ==> run.dataset == dataset.value)
      && (since.Some? ==> since.value <= run.started)
      && (until.Some? ==> run.started < until.value)
    }
  }

  predicate NewestFirst(runs: seq<Run>) {
    forall i, j :: 0 <= i < j < |runs| ==> runs[i].started >= runs[j].started
  }

  predicate DistinctIds(runs: seq<Run>) {
    forall i, j :: 0 <= i < j < |runs| ==> runs[i].id != runs[j].id
  }

  /** Each run of `data` that the filter admits, exactly once. */
  ghost predicate ListsExactly(runs: seq<Run>, data: map<Path, Run>, f: Filter) {
    && DistinctIds(runs)
    && (forall p :: p in data && f.Admits(data[p]) ==> data[p] in runs)
    && (forall i :: 0 <= i < |runs| ==> PathOf(runs[i]) in data && data[PathOf(runs[i])] == runs[i] && f.Admits(runs[i]))
  }

  method InsertNewestFirst(runs: seq<Run>, run: Run) returns (r: seq<Run>)
    requires NewestFirst(runs)
    ensures NewestFirst(r)
    ensures exists k: nat :: Inserted(runs, r, run, k)
  {
    var k := 0;
    while k < |runs| && runs[k].started >= run.started
      invariant 0 <= k <= |runs|
      invariant forall i :: 0 <= i < k ==> runs[i].started >= run.started
    {
      k := k + 1;
    }
    r := runs[..k] + [run] + runs[k..];
    assert Inserted(runs, r, run, k);
  }

  /** The files a prune is to remove. */
  function Older(data: map<Path, Run>, cutoff: nat): set<Path> {
    set p | p in data && data[p].started < cutoff
  }

  function Ids(paths: set<Path>): set<string> {
    set p | p in paths :: p.id
  }

  lemma IdsGrow(paths: set<Path>, more: set<Path>)
    ensures Ids(paths + more) == Ids(paths) + Ids(more)
  {
    forall id | id in Ids(paths) + Ids(more) ensures id in Ids(paths + more) {
      var q :| q in paths + more && q.id == id;
    }
  }

  lemma RemovedInTwo(data: map<Path, Run>, gone: set<Path>, more: set<Path>, markers: set<string>)
    requires more !! gone
    ensures data - gone - more == data - (gone + more)
    ensures markers - Ids(gone) - Ids(more) == markers - Ids(gone + more)
    ensures |gone + more| == |gone| + |more|
  {
    IdsGrow(gone, more);
  }

  /** The old files of the shards already visited. */
  ghost predicate PrunedSoFar(data: map<Path, Run>, cutoff: nat, todo: set<Shard>, gone: set<Path>) {
    forall p :: p in gone <==> p in Older(data, cutoff) && p.shard !in todo
  }

  lemma PrunedStart(data: map<Path, Run>, cutoff: nat, dirs: set<Shard>)
    requires forall p :: p in data ==> p.shard in dirs
    ensures PrunedSoFar(data, cutoff, dirs, {}) && Ids({}) == {}
  {}

  lemma PrunedStep(
      data: map<Path, Run>, cutoff: nat, todo: set<Shard>, gone: set<Path>, shard: Shard, more: set<Path>)
    requires PrunedSoFar(data, cutoff, todo, gone) && shard in todo
    requires more == set p | p in Older(data - gone, cutoff) && p.shard == shard
    ensures PrunedSoFar(data, cutoff, todo - {shard}, gone + more) && more !! gone
  {}

  lemma PrunedAll(data: map<Path, Run>, cutoff: nat, gone: set<Path>)
    requires PrunedSoFar(data, cutoff, {}, gone)
    ensures gone == Older(data, cutoff) && gone <= data.Keys
  {}

  lemma UniqueIdsKeepMarkers(data: map<Path, Run>, gone: set<Path>, markers: set<string>)
    requires gone <= data.Keys
    requires forall p, q :: p in data && q in data && p.id == q.id ==> p == q
    requires forall p :: p in data ==> p.id in markers
    ensures forall p :: p in data && p !in gone ==> p.id in markers - Ids(gone)
  {}

  /** Without the old files there are left exactly the runs that did not start before the cut-off,
      and the markers of all others are gone. */
  lemma WithoutOlder(
      data: map<Path, Run>, markers: set<string>, cutoff: nat, after: map<Path, Run>, markersAfter: set<string>)
    requires after == data - Older(data, cutoff) && markersAfter == markers - Ids(Older(data, cutoff))
    ensures forall p :: p in after <==> p in data && data[p].started >= cutoff
    ensures forall p :: p in after ==> after[p] == data[p]
    ensures forall id :: id in markersAfter <==>
              id in markers && !exists p :: p in data && p.id == id && data[p].started < cutoff
    ensures |Older(data, cutoff)| == |data.Keys| - |after.Keys|
  {
    var gone := Older(data, cutoff);
    assert after.Keys == data.Keys - gone;
    assert forall p :: p in data && data[p].started < cutoff ==> p in gone && p.id in Ids(gone);
  }

  datatype ReadError = BadRunId | NotFound

  class FileEvalRunStore {
    var markers: set<string>
    var data: map<Path, Run>
    var dirs: set<Shard>

    /** What every history of the protocol keeps (EvalStore). */
    ghost predicate Valid()
      reads this
    {
      && (forall p :: p in data ==> p == PathOf(data[p]) && p.id in markers && p.shard in dirs)
      && (forall p, q :: p in data && q in data && p.id == q.id ==> p == q)
    }

    constructor ()
      ensures Valid() && data == map[] && markers == {}
    {
      markers, data, dirs := {}, map[], {};
    }

    method Locate(id: string) returns (found: Option<Path>)
      ensures found.Some? ==> found.value in data && found.value.id == id
      ensures found.None? ==> forall p :: p in data && p.shard in dirs ==> p.id != id
    {
      var todo := dirs;
      while todo != {}
        invariant todo <= dirs
        invariant forall p :: p in data && p.shard in dirs - todo ==> p.id != id
        decreases todo
      {
        var dir :| dir in todo;
        if Path(dir, id) in data { return Some(Path(dir, id)); }
        todo := todo - {dir};
      }
      found := None;
    }

    /** An id with a file or a marker is refused before the payload is looked at; a refused
        write changes nothing but, at most, the directories. */
    method Write(run: Run, payloadValid: bool) returns (r: Result<Run, WriteError>)
      requires Valid()
      modifies this
      ensures Valid()
      ensures r.Ok? <==> ValidRunId(run.id) && run.id !in old(markers) && payloadValid
      ensures r == Err(AlreadyExists) <==> ValidRunId(run.id) && run.id in old(markers)
      ensures r.Ok? ==> data == old(data)[PathOf(run) := run] && markers == old(markers) + {run.id}
      ensures r.Ok? ==> PathOf(run) !in old(data)
      ensures r.Err? ==> data == old(data) && markers == old(markers)
    {
      if !ValidRunId(run.id) { return Err(InvalidRun); }
      var found := Locate(run.id);
      if found.Some? { return Err(AlreadyExists); }
      if run.id in markers { return Err(AlreadyExists); }
      if !payloadValid { return Err(InvalidRun); }
      dirs := dirs + {ShardOf(run.started)};
      markers := markers + {run.id};
      data := data[PathOf(run) := run];
      r := Ok(run);
    }

    /** The committed run of that id; an id that is no path component is told apart from one that
        was never committed. */
    method Read(id: string) returns (r: Result<Run, ReadError>)
      requires Valid()
      ensures r.Ok? ==> r.value.id == id && PathOf(r.value) in data && data[PathOf(r.value)] == r.value
      ensures r == Err(BadRunId) <==> !ValidRunId(id)
      ensures r == Err(NotFound) <==> ValidRunId(id) && forall p :: p in data ==> p.id != id
    {
      if !ValidRunId(id) { return Err(BadRunId); }
      var found := Locate(id);
      r := if found.Some? then Ok(data[found.value]) else Err(NotFound);
    }

    /** Removes exactly the runs that started before the cut-off, with their markers. */
    method Prune(cutoff: nat) returns (deleted: nat)
      requires Valid()
      modifies this
      ensures Valid()
      ensures forall p :: p in data <==> p in old(data) && old(data)[p].started >= cutoff
      ensures forall p :: p in data ==> data[p] == old(data)[p]
      ensures forall id :: id in markers <==>
                id in old(markers) && !exists p :: p in old(data) && p.id == id && old(data)[p].started < cutoff
      ensures deleted == |old(data).Keys| - |data.Keys|
    {
      ghost var was, hadMarkers := data, markers;
      deleted := PruneShards(cutoff);
      WithoutOlder(was, hadMarkers, cutoff, data, markers);
    }

    /** The outer loop of `prune`, over the shards. */
    method PruneShards(cutoff: nat) returns (deleted: nat)
      requires Valid()
      modifies this
      ensures Valid()
      ensures data == old(data) - Older(old(data), cutoff)
      ensures markers == old(markers) - Ids(Older(old(data), cutoff))
      ensures deleted == |Older(old(data), cutoff)|
    {
      hide ShardOf, PathOf, Ids, Older;
      deleted := 0;
      ghost var was, hadMarkers, gone: set<Path> := data, markers, {};
      var todo := dirs;
      PrunedStart(was, cutoff, dirs);
      while todo != {}
        invariant todo <= old(dirs)
        invariant data == was - gone && markers == hadMarkers - Ids(gone) && deleted == |gone|
        invariant PrunedSoFar(was, cutoff, todo, gone)
        invariant forall p :: p in data ==> p.shard in dirs
        decreases todo
      {
        var shard :| shard in todo;
        ghost var more;
        var n, emptyAfter;
        n, emptyAfter, more := PruneShard(shard, cutoff);
        PrunedStep(was, cutoff, todo, gone, shard, more);
        RemovedInTwo(was, gone, more, hadMarkers);
        gone := gone + more;
        deleted := deleted + n;
        if emptyAfter { dirs := dirs - {shard}; }
        todo := todo - {shard};
      }
      PrunedAll(was, cutoff, gone);
      UniqueIdsKeepMarkers(was, gone, hadMarkers);
    }

    /** The inner loop of `prune`, over the files of one shard. */
    method PruneShard(shard: Shard, cutoff: nat) returns (deleted: nat, emptyAfter: bool, ghost gone: set<Path>)
      modifies this`data, this`markers
      ensures gone == set p | p in Older(old(data), cutoff) && p.shard == shard
      ensures data == old(data) - gone && markers == old(markers) - Ids(gone) && deleted == |gone|
      ensures emptyAfter <==> forall p :: p in data ==> p.shard != shard
      ensures forall p :: p in data <==> p in old(data) && (p.shard == shard ==> old(data)[p].started >= cutoff)
    {
      deleted, emptyAfter, gone := 0, true, {};
      var files := set p | p in data && p.shard == shard;
      ghost var listed := files;
      while files != {}
        invariant files <= listed
        invariant data == old(data) - gone && markers == old(markers) - Ids(gone) && deleted == |gone|
        invariant gone == set p | p in Older(old(data), cutoff) && p in listed && p !in files
        invariant emptyAfter <==> forall p :: p in listed && p !in files ==> p in gone
        decreases files
      {
        var path :| path in files;
        if data[path].started < cutoff {
          data := data - {path};
          markers := markers - {path.id};
          deleted := deleted + 1;
          IdsGrow(gone, {path});
          gone := gone + {path};
        } else {
          emptyAfter := false;
        }
        files := files - {path};
      }
    }

    /** Every admitted run once, newest first, cut to the limit. */
    method ListFull(f: Filter) returns (runs: seq<Run>)
      requires Valid()
      ensures exists all :: NewestFirst(all) && ListsExactly(all, data, f)
                && runs == if f.limit.Some? && f.limit.value < |all| then all[..f.limit.value] else all
      ensures forall i, j :: 0 <= i < j < |runs| ==> runs[i].started >= runs[j].started && runs[i].id != runs[j].id
      ensures forall i :: 0 <= i < |runs| ==>
                && PathOf(runs[i]) in data && data[PathOf(runs[i])] == runs[i]
                && (f.dataset.Some? ==> runs[i].dataset == f.dataset.value)
                && (f.since.Some? ==> runs[i].started >= f.since.value)
                && (f.until.Some? ==> runs[i].started < f.until.value)
      ensures f.limit.None? ==> forall p ::
                (p in data
                 && (f.dataset.Some? ==> data[p].dataset == f.dataset.value)
                 && (f.since.Some? ==> data[p].started >= f.since.value)
                 && (f.until.Some? ==> data[p].started < f.until.value)) ==> data[p] in runs
    {
      hide ShardOf, ListsExactly, NewestFirst, Filter.Admits;
      runs := [];
      NothingIsSorted();
      var todo := data.Keys;
      ghost var seen: map<Path, Run> := map[];
      ListsNothing(f);
      while todo != {}
        invariant todo <= data.Keys
        invariant seen == data - todo
        invariant NewestFirst(runs) && ListsExactly(runs, seen, f)
        decreases todo
      {
        var path :| path in todo;
        ghost var had := runs;
        if f.Admits(data[path]) {
          runs := InsertNewestFirst(runs, data[path]);
          ListsOneMore(had, runs, data[path], seen, f);
        } else {
          SkipsOne(runs, data[path], seen, f);
        }
        seen := seen[path := data[path]];
        todo := todo - {path};
      }
      assert seen == data;
      ghost var all := runs;
      if f.limit.Some? && f.limit.value < |runs| { runs := runs[..f.limit.value]; }
      assert NewestFirst(all) && ListsExactly(all, data, f);
      ListedMeans(all, runs, data, f);
    }
  }

  lemma NothingIsSorted()
    ensures NewestFirst([])
  {}

  /** What a listing holds, in the terms of its filter. */
  lemma ListedMeans(all: seq<Run>, runs: seq<Run>, data: map<Path, Run>, f: Filter)
    requires NewestFirst(all) && ListsExactly(all, data, f)
    requires runs <= all && (f.limit.None? ==> runs == all)
    ensures forall i, j :: 0 <= i < j < |runs| ==> runs[i].started >= runs[j].started && runs[i].id != runs[j].id
    ensures forall i :: 0 <= i < |runs| ==>
              && PathOf(runs[i]) in data && data[PathOf(runs[i])] == runs[i]
              && (f.dataset.Some? ==> runs[i].dataset == f.dataset.value)
              && (f.since.Some? ==> runs[i].started >= f.since.value)
              && (f.until.Some? ==> runs[i].started < f.until.value)
    ensures f.limit.None? ==> forall p ::
              (p in data
               && (f.dataset.Some? ==> data[p].dataset == f.dataset.value)
               && (f.since.Some? ==> data[p].started >= f.since.value)
               && (f.until.Some? ==> data[p].started < f.until.value)) ==> data[p] in runs
  {
    hide ShardOf;
    assert forall i :: 0 <= i < |runs| ==> runs[i] == all[i];
  }

  lemma ListsNothing(f: Filter)
    ensures ListsExactly([], map[], f)
  {}

  lemma SkipsOne(runs: seq<Run>, run: Run, seen: map<Path, Run>, f: Filter)
    requires ListsExactly(runs, seen, f) && !f.Admits(run) && PathOf(run) !in seen
    ensures ListsExactly(runs, seen[PathOf(run) := run], f)
  {}

  ghost predicate Inserted(had: seq<Run>, runs: seq<Run>, run: Run, k: nat) {
    k <= |had| && runs == had[..k] + [run] + had[k..]
  }

  lemma InsertedElements(had: seq<Run>, runs: seq<Run>, run: Run, k: nat)
    requires Inserted(had, runs, run, k)
    ensures forall r :: r in runs <==> r in had || r == run
    ensures DistinctIds(had) && (forall i :: 0 <= i < |had| ==> had[i].id != run.id) ==> DistinctIds(runs)
  {
    assert had == had[..k] + had[k..];
    assert forall r :: r in runs <==> r in had[..k] || r == run || r in had[k..];
    InsertedDistinct(had, runs, run, k);
  }

  lemma InsertedDistinct(had: seq<Run>, runs: seq<Run>, run: Run, k: nat)
    requires Inserted(had, runs, run, k)
    ensures DistinctIds(had) && (forall i :: 0 <= i < |had| ==> had[i].id != run.id) ==> DistinctIds(runs)
  {
    assert forall i :: 0 <= i < |runs| ==> runs[i] == if i < k then had[i] else if i == k then run else had[i - 1];
  }

  lemma ListsOneMore(had: seq<Run>, runs: seq<Run>, run: Run, seen: map<Path, Run>, f: Filter)
    requires ListsExactly(had, seen, f) && f.Admits(run) && PathOf(run) !in seen
    requires exists k: nat :: Inserted(had, runs, run, k)
    requires forall p :: p in seen ==> p == PathOf(seen[p]) && p.id != run.id
    ensures ListsExactly(runs, seen[PathOf(run) := run], f)
  {
    hide ShardOf, Filter.Admits, Inserted;
    var k: nat :| Inserted(had, runs, run, k);
    InsertedElements(had, runs, run, k);
    forall i | 0 <= i < |runs| && runs[i] != run
      ensures PathOf(runs[i]) in seen && seen[PathOf(runs[i])] == runs[i] && f.Admits(runs[i])
    {
      assert runs[i] in runs;
      var j :| 0 <= j < |had| && had[j] == runs[i];
    }
  }

  // ---- One caller's calls are runs of the protocol -----------------------------------------

  /** What a prune leaves. */
  ghost predicate PrunedBy(before: Store, after: Store, cutoff: nat) {
    && (forall p :: p in after.data <==> p in before.data && before.data[p].started >= cutoff)
    && (forall p :: p in after.data ==> after.data[p] == before.data[p])
    && (forall id :: id in after.markers <==>
          id in before.markers && !exists p :: p in before.data && p.id == id && before.data[p].started < cutoff)
  }

  /** From its scan on, a prune can go on until no old file is left. */
  lemma {:induction false} PrunesTheRest(es: seq<Event>, s: Store, n: nat, cutoff: nat)
    returns (es': seq<Event>, s': Store)
    requires Execute(es) == Some(s) && n in s.tasks && s.tasks[n] == Scanning(cutoff)
    ensures Execute(es') == Some(s') && es <= es' && s'.tasks == s.tasks && PrunedBy(s, s', cutoff)
    decreases |Older(s.data, cutoff)|
  {
    hide Execute, ShardOf, WriterStep;
    if Older(s.data, cutoff) == {} {
      es', s' := es, s;
      assert forall p :: p in s.data ==> p !in Older(s.data, cutoff);
    } else {
      var p :| p in Older(s.data, cutoff);
      FileKnowsItsId(es, s, p);
      PrunerActs(s, ReadOld(n, p));
      var mid;
      es', mid := Extend(es, s, ReadOld(n, p));
      es', mid := FirstRemoves(es', mid, n, p);
      assert mid.tasks == s.tasks;
      assert Older(mid.data, cutoff) == Older(s.data, cutoff) - {p};
      es', s' := PrunesTheRest(es', mid, n, cutoff);
      PrunedOneMore(s, mid, s', p, cutoff);
    }
  }

  lemma FileKnowsItsId(es: seq<Event>, s: Store, p: Path)
    requires Execute(es) == Some(s) && p in s.data
    ensures s.data[p].id == p.id
  {
    hide Execute, ShardOf, MarkerInv;
    ExecuteInv(es);
  }

  lemma PrunedOneMore(s: Store, mid: Store, s': Store, p: Path, cutoff: nat)
    requires p in s.data && s.data[p].started < cutoff
    requires mid.data == s.data - {p} && mid.markers == s.markers - {p.id} && PrunedBy(mid, s', cutoff)
    ensures PrunedBy(s, s', cutoff)
  {
    forall id
      ensures id in s'.markers <==>
              id in s.markers && !exists q :: q in s.data && q.id == id && s.data[q].started < cutoff
    {
      if exists q :: q in s.data && q.id == id && s.data[q].started < cutoff {
        var q :| q in s.data && q.id == id && s.data[q].started < cutoff;
        if q != p { assert q in mid.data && mid.data[q].started < cutoff; }
      }
    }
  }

  /** A prune that no other task disturbs is a run of the protocol, from its start to its end, that
      leaves the data and the markers that `Prune` promises. */
  lemma PruneIsARun(es: seq<Event>, s: Store, n: nat, cutoff: nat) returns (es': seq<Event>, s': Store)
    requires Execute(es) == Some(s) && n !in s.tasks
    ensures Execute(es') == Some(s') && es <= es' && PrunedBy(s, s', cutoff)
    ensures s'.tasks == s.tasks[n := PruneDone]
  {
    hide Execute, ShardOf, WriterStep, PrunedBy;
    var started;
    es', started := Extend(es, s, StartPrune(n, cutoff));
    es', s' := PrunesTheRest(es', started, n, cutoff);
    SameFilesPruned(s, started, s', cutoff);
    var done := s';
    PruneEnds(s', n, cutoff);
    es', s' := Extend(es', s', EndPrune(n));
    SameFilesAfter(s, done, s', cutoff);
    assert s'.tasks == s.tasks[n := PruneDone];
  }

  lemma PruneEnds(s: Store, n: nat, cutoff: nat)
    requires n in s.tasks && s.tasks[n] == Scanning(cutoff)
    ensures Step(s, EndPrune(n)) == Some(s.(tasks := s.tasks[n := PruneDone]))
  {
    hide ShardOf;
  }

  lemma SameFilesPruned(s: Store, t: Store, after: Store, cutoff: nat)
    requires s.data == t.data && s.markers == t.markers && PrunedBy(t, after, cutoff)
    ensures PrunedBy(s, after, cutoff)
  {}

  lemma SameFilesAfter(s: Store, after: Store, t: Store, cutoff: nat)
    requires after.data == t.data && after.markers == t.markers && PrunedBy(s, after, cutoff)
    ensures PrunedBy(s, t, cutoff)
  {}

  /** So is a write of a usable id without marker: it leaves the data and the markers that `Write`
      promises. */
  lemma WriteIsARun(es: seq<Event>, s: Store, n: nat, run: Run) returns (es': seq<Event>, s': Store)
    requires Execute(es) == Some(s) && n !in s.tasks && ValidRunId(run.id) && run.id !in s.markers
    ensures Execute(es') == Some(s') && es <= es' && s'.tasks == s.tasks[n := WriteDone(Ok(run))]
    ensures s'.data == s.data[PathOf(run) := run] && s'.markers == s.markers + {run.id}
  {
    hide Execute, ShardOf, PrunerStep;
    forall p | p in s.data ensures p.id != run.id { FileHasMarker(es, p); }
    es', s' := WriteAlone(es, s, n, run);
    es', s' := Extend(es', s', DropTmp(n, true));
    assert s'.tasks == s.tasks[n := WriteDone(Ok(run))];
  }
}
