/** The directory-navigation protocol of the vault browser. `navigate` bumps a wrapping 32-bit
    generation and spawns a future; the future commits its response only while its generation is
    still the current one. Futures start and complete in any order. */
module VaultContext {
  import opened Bytes
  import opened Wrappers

  datatype FileEntry = FileEntry(id: string, name: string)

  /** The shared browser state. */
  datatype View = View(currentPath: string, files: seq<FileEntry>, loading: bool, error: Option<string>,
                       selected: seq<string>)

  /** A spawned future: the path and generation it captured, and whether its body has begun to run. */
  datatype Future = Future(path: string, generation: nat, started: bool)

  /** Futures in flight are keyed by the position in the run of the event that spawned them. */
  datatype Nav = Nav(view: View, generation: nat, futures: map<nat, Future>, clock: nat)

  const EMPTY_VIEW := View("", [], false, None, [])
  const INITIAL := Nav(EMPTY_VIEW, 0, map[], 0)

  /** What `list_directory` answers. */
  datatype Response = Listed(files: seq<FileEntry>) | Failed(message: string)

  datatype Event =
    | Navigate(path: string)
    | Refresh
    | Clear
    | SetError(message: string)
    | Start(id: nat)
    | Complete(id: nat, response: Response)

  function Bump(generation: nat): (g: nat)
    ensures g < U32_LIMIT
  {
    (generation + 1) % U32_LIMIT
  }

  predicate Enabled(s: Nav, e: Event) {
    match e
    case Start(id) => id in s.futures && !s.futures[id].started
    case Complete(id, _) => id in s.futures && s.futures[id].started
    case _ => true
  }

  function Spawned(s: Nav, path: string): Nav {
    var g := Bump(s.generation);
    s.(generation := g, futures := s.futures[s.clock := Future(path, g, false)])
  }

  /** What a completed future does to the view if its generation is current. */
  function Committed(view: View, path: string, response: Response): View {
    match response
    case Listed(files) => view.(currentPath := path, files := files, loading := false)
    case Failed(message) => view.(loading := false, error := Some(message))
  }

  function Step(s: Nav, e: Event): Nav
    requires Enabled(s, e)
  {
    var t := match e
      case Navigate(path) => Spawned(s, path)
      case Refresh => Spawned(s, s.view.currentPath)
      case Clear => s.(generation := Bump(s.generation), view := EMPTY_VIEW)
      case SetError(message) => s.(view := s.view.(error := Some(message)))
      case Start(id) =>
        s.(view := s.view.(loading := true, error := None), futures := s.futures[id := s.futures[id].(started := true)])
      case Complete(id, response) =>
        var future := s.futures[id];
        s.(view := if s.generation == future.generation then Committed(s.view, future.path, response) else s.view,
           futures := s.futures - {id});
    t.(clock := s.clock + 1)
  }

  /** The context that the components share; each method is one event. */
  class VaultActions {
    var currentPath: string
    var files: seq<FileEntry>
    var loading: bool
    var error: Option<string>
    var selected: seq<string>
    var navGeneration: nat
    var futures: map<nat, Future>
    var clock: nat

    function Abstract(): Nav
      reads this
    {
      Nav(View(currentPath, files, loading, error, selected), navGeneration, futures, clock)
    }

    constructor ()
      ensures Abstract() == INITIAL
    {
      currentPath, files, loading, error, selected := "", [], false, None, [];
      navGeneration, futures, clock := 0, map[], 0;
    }

    method Navigate(path: string)
      modifies this
      ensures Abstract() == Step(old(Abstract()), Event.Navigate(path))
    {
      var navGen := (navGeneration + 1) % U32_LIMIT;
      navGeneration := navGen;
      futures := futures[clock := Future(path, navGen, false)];
      clock := clock + 1;
    }

    method Refresh()
      modifies this
      ensures Abstract() == Step(old(Abstract()), Event.Refresh)
    {
      var path := currentPath;
      Navigate(path);
    }

    method Clear()
      modifies this
      ensures Abstract() == Step(old(Abstract()), Event.Clear)
    {
      navGeneration := (navGeneration + 1) % U32_LIMIT;
      currentPath := "";
      files := [];
      loading := false;
      error := None;
      selected := [];
      clock := clock + 1;
    }

    method SetError(message: string)
      modifies this
      ensures Abstract() == Step(old(Abstract()), Event.SetError(message))
    {
      error := Some(message);
      clock := clock + 1;
    }

    /** A future runs up to its await. */
    method StartFuture(id: nat)
      requires Enabled(Abstract(), Start(id))
      modifies this
      ensures Abstract() == Step(old(Abstract()), Start(id))
    {
      loading := true;
      error := None;
      futures := futures[id := futures[id].(started := true)];
      clock := clock + 1;
    }

    /** A future resumes with its response and ends. */
    method CompleteFuture(id: nat, response: Response)
      requires Enabled(Abstract(), Complete(id, response))
      modifies this
      ensures Abstract() == Step(old(Abstract()), Complete(id, response))
    {
      var future := futures[id];
      if navGeneration == future.generation {
        match response
        case Listed(listed) =>
          currentPath := future.path;
          files := listed;
          loading := false;
        case Failed(message) =>
          loading := false;
          error := Some(message);
      }
      futures := futures - {id};
      clock := clock + 1;
    }
  }

  // ---------------------------------------------------------------- runs

  predicate IsBump(e: Event) {
    e.Navigate? || e.Refresh? || e.Clear?
  }

  predicate Spawns(e: Event) {
    e.Navigate? || e.Refresh?
  }

  /** Generation bumps among the events from `from` on. */
  function Bumps(run: seq<Event>, from: nat): (n: nat)
    requires from <= |run|
    decreases |run|
  {
    if from == |run| then 0
    else Bumps(run[..|run| - 1], from) + (if IsBump(run[|run| - 1]) then 1 else 0)
  }

  predicate ValidRun(run: seq<Event>)
    decreases |run|, 0
  {
    run == [] || (ValidRun(run[..|run| - 1]) && Enabled(After(run[..|run| - 1]), run[|run| - 1]))
  }

  function After(run: seq<Event>): Nav
    requires ValidRun(run)
    decreases |run|, 1
  {
    if run == [] then INITIAL else Step(After(run[..|run| - 1]), run[|run| - 1])
  }

  /** The generation `g` once `n` bumps have followed generation `was`. */
  predicate Lags(g: nat, was: nat, n: nat) {
    g == (was + n) % U32_LIMIT
  }

  /** Each future in flight was spawned by the event at its key, and its generation lags the current one
      by the bumps since then, counted modulo 2^32. */
  ghost predicate RunInv(run: seq<Event>)
    requires ValidRun(run)
  {
    var s := After(run);
    && s.clock == |run| && s.generation < U32_LIMIT
    && forall id :: id in s.futures ==>
         && id < |run| && Spawns(run[id])
         && s.futures[id].generation < U32_LIMIT
         && Lags(s.generation, s.futures[id].generation, Bumps(run, id + 1))
  }

  lemma LagGrows(g: nat, was: nat, n: nat)
    ensures Lags(g, was, n) ==> Lags(Bump(g), was, n + 1)
    ensures g < U32_LIMIT ==> Lags(g, g, 0)
  {
  }

  lemma FutureStep(s: Nav, e: Event, id: nat)
    requires Enabled(s, e)
    ensures Step(s, e).clock == s.clock + 1
    ensures Step(s, e).generation == (if IsBump(e) then Bump(s.generation) else s.generation)
    ensures id != s.clock || !Spawns(e) ==>
              var t := Step(s, e);
              && (id in t.futures <==> id in s.futures && !(e.Complete? && e.id == id))
              && (id in t.futures ==>
                    t.futures[id] == s.futures[id].(started := s.futures[id].started || e == Start(id)))
    ensures Spawns(e) ==> s.clock in Step(s, e).futures && !Step(s, e).futures[s.clock].started &&
                          Step(s, e).futures[s.clock].generation == Step(s, e).generation
  {
  }

  lemma {:induction false} RunKeepsInv(run: seq<Event>)
    requires ValidRun(run)
    ensures RunInv(run)
    decreases |run|
  {
    if run != [] {
      hide Step, Enabled, Bump, Lags;
      var before, e := run[..|run| - 1], run[|run| - 1];
      RunKeepsInv(before);
      var s, t := After(before), After(run);
      FutureStep(s, e, 0);
      forall id | id in t.futures
        ensures id < |run| && Spawns(run[id]) && t.futures[id].generation < U32_LIMIT
        ensures Lags(t.generation, t.futures[id].generation, Bumps(run, id + 1))
      {
        FutureStep(s, e, id);
        LagGrows(t.generation, 0, 0);
        if id != s.clock || !Spawns(e) {
          assert run[id] == before[id];
          LagGrows(s.generation, s.futures[id].generation, Bumps(before, id + 1));
        }
      }
    }
  }

  /** The completion at position `k` comes a multiple of 2^32 bumps after its navigation was issued. */
  predicate Commits(run: seq<Event>, k: nat)
    requires k < |run|
  {
    run[k].Complete? && run[k].id < k && Bumps(run[..k], run[k].id + 1) % U32_LIMIT == 0
  }

  /** The heart of the protocol, for every interleaving: a completing future commits exactly when the
      number of bumps since it was issued is a multiple of 2^32; otherwise the view is untouched. */
  lemma CommitsIffCurrent(run: seq<Event>)
    requires ValidRun(run) && run != [] && run[|run| - 1].Complete?
    ensures var before, id, response := run[..|run| - 1], run[|run| - 1].id, run[|run| - 1].response;
            && id < |before|
            && After(run).view == (if Commits(run, |run| - 1)
                                   then Committed(After(before).view, After(before).futures[id].path, response)
                                   else After(before).view)
  {
    hide Lags;
    var before := run[..|run| - 1];
    RunKeepsInv(before);
    var s, id := After(before), run[|run| - 1].id;
    SameResidue(s.generation, s.futures[id].generation, Bumps(before, id + 1));
  }

  lemma SameResidue(g: nat, was: nat, n: nat)
    requires was < U32_LIMIT && Lags(g, was, n)
    ensures g == was <==> n % U32_LIMIT == 0
  {
  }

  /** A response issued before a later navigation or clear never writes the view, provided fewer than
      2^32 bumps happen while it is in flight. */
  lemma StaleResponseDiscarded(run: seq<Event>)
    requires ValidRun(run) && run != [] && run[|run| - 1].Complete?
    requires run[|run| - 1].id < |run| - 1
    requires 0 < Bumps(run[..|run| - 1], run[|run| - 1].id + 1) < 0x1_0000_0000
    ensures After(run).view == After(run[..|run| - 1]).view
  {
    hide Step, Enabled, Bumps, Committed;
    CommitsIffCurrent(run);
  }

  // ---------------------------------------------------------------- zero trace after clear

  /** After the `clear` at position `c` no listing of a navigation issued later commits, and none of a
      navigation issued before arrives after 2^32 bumps or more. */
  ghost predicate NoLaterCommit(run: seq<Event>, c: nat) {
    forall j :: c < j < |run| && run[j].Complete? && run[j].response.Listed? ==>
      && (c < run[j].id ==> !Commits(run, j))
      && (run[j].id <= c ==> Bumps(run[..j], run[j].id + 1) < U32_LIMIT)
  }

  lemma {:induction false} BumpSince(run: seq<Event>, from: nat, c: nat)
    requires from <= c < |run| && IsBump(run[c])
    ensures Bumps(run, from) > 0
    decreases |run|
  {
    if c < |run| - 1 {
      var before := run[..|run| - 1];
      assert before[c] == run[c];
      BumpSince(before, from, c);
    }
  }

  lemma NoLaterCommitBefore(run: seq<Event>, c: nat)
    requires run != [] && NoLaterCommit(run, c)
    ensures NoLaterCommit(run[..|run| - 1], c)
  {
    var before := run[..|run| - 1];
    forall j | c < j < |before| && before[j].Complete? && before[j].response.Listed?
      ensures c < before[j].id ==> !Commits(before, j)
      ensures before[j].id <= c ==> Bumps(before[..j], before[j].id + 1) < U32_LIMIT
    {
      assert run[j] == before[j] && run[..j] == before[..j];
    }
  }

  lemma ListingDiscarded(run: seq<Event>, c: nat)
    requires ValidRun(run) && c < |run| - 1 && run[c].Clear? && NoLaterCommit(run, c)
    requires run[|run| - 1].Complete? && run[|run| - 1].response.Listed?
    ensures After(run).view == After(run[..|run| - 1]).view
  {
    hide Lags, Step, Commits, Bumps, Committed, Bump;
    var before, e := run[..|run| - 1], run[|run| - 1];
    if e.id <= c {
      RunKeepsInv(before);
      assert before[c] == run[c] && before[e.id] == run[e.id];
      BumpSince(before, e.id + 1, c);
      StaleResponseDiscarded(run);
    } else {
      CommitsIffCurrent(run);
    }
  }

  /** After `clear` path and files stay empty in every continuation, until a navigation issued
      afterwards commits. */
  lemma {:induction false} ClearedStaysEmpty(run: seq<Event>, c: nat)
    requires ValidRun(run) && c < |run| && run[c].Clear? && NoLaterCommit(run, c)
    ensures After(run).view.currentPath == "" && After(run).view.files == []
    decreases |run|
  {
    hide NoLaterCommit;
    var before, e := run[..|run| - 1], run[|run| - 1];
    if c < |run| - 1 {
      NoLaterCommitBefore(run, c);
      assert before[c] == run[c];
      ClearedStaysEmpty(before, c);
      if e.Complete? && e.response.Listed? {
        ListingDiscarded(run, c);
      }
    }
  }

  // ---------------------------------------------------------------- the bound is tight

  function Clears(n: nat): (run: seq<Event>)
    ensures |run| == n && forall i :: 0 <= i < n ==> run[i] == Clear
  {
    if n == 0 then [] else Clears(n - 1) + [Clear]
  }

  /** After `navigate`, the start of its future and `n` clears. */
  function Overtaken(path: string, n: nat): seq<Event> {
    [Navigate(path), Start(0)] + Clears(n)
  }

  lemma {:induction false} OvertakenState(path: string, n: nat)
    ensures ValidRun(Overtaken(path, n)) && 0 in After(Overtaken(path, n)).futures
    ensures After(Overtaken(path, n)).futures[0] == Future(path, 1, true)
    ensures After(Overtaken(path, n)).generation == (1 + n) % U32_LIMIT
    ensures n > 0 ==> After(Overtaken(path, n)).view == EMPTY_VIEW
  {
    var run := Overtaken(path, n);
    if n == 0 {
      assert run == [Navigate(path), Start(0)];
      var one := run[..1];
      assert one == [Navigate(path)] && one[..0] == [];
      assert ValidRun(one) && After(one) == Step(INITIAL, Navigate(path));
    } else {
      OvertakenState(path, n - 1);
      assert run[..|run| - 1] == Overtaken(path, n - 1) && run[|run| - 1] == Clear;
      LagGrows(n % U32_LIMIT, 1, n - 1);
    }
  }

  /** Exactly 2^32 clears while a response is in flight: the stale listing reappears in the cleared view. */
  lemma BoundIsTight(path: string, files: seq<FileEntry>)
    ensures var run := Overtaken(path, U32_LIMIT) + [Complete(0, Listed(files))];
            && ValidRun(run) && After(run[..|run| - 1]).view == EMPTY_VIEW
            && After(run).view.currentPath == path && After(run).view.files == files
  {
    var run := Overtaken(path, U32_LIMIT) + [Complete(0, Listed(files))];
    OvertakenState(path, U32_LIMIT);
    assert run[..|run| - 1] == Overtaken(path, U32_LIMIT);
  }

  // ---------------------------------------------------------------- what is shown

  /** The path that the event at `id` asked for: its own, or for a refresh the one shown when it was issued. */
  function PathAsked(run: seq<Event>, id: nat): string
    requires ValidRun(run) && id < |run| && Spawns(run[id])
  {
    PrefixValid(run, id);
    if run[id].Navigate? then run[id].path else After(run[..id]).view.currentPath
  }

  lemma {:induction false} PrefixValid(run: seq<Event>, n: nat)
    requires ValidRun(run) && n <= |run|
    ensures ValidRun(run[..n])
    decreases |run|
  {
    if n == |run| {
      assert run[..n] == run;
    } else {
      PrefixValid(run[..|run| - 1], n);
      assert run[..|run| - 1][..n] == run[..n];
    }
  }

  lemma {:induction false} FuturePath(run: seq<Event>, id: nat)
    requires ValidRun(run) && id in After(run).futures
    ensures id < |run| && Spawns(run[id]) && After(run).futures[id].path == PathAsked(run, id)
    decreases |run|
  {
    RunKeepsInv(run);
    var before, e := run[..|run| - 1], run[|run| - 1];
    RunKeepsInv(before);
    PrefixValid(run, id);
    if id == |before| {
      assert run[..id] == before;
    } else {
      FutureStep(After(before), e, id);
      FuturePath(before, id);
      assert before[..id] == run[..id] && before[id] == run[id];
    }
  }

  /** A committed listing shows the path that was asked for and the files listed for it, and a committed failure its
      message. In particular a refresh leaves the path that was shown when it was issued. */
  lemma CommitShowsAnswer(run: seq<Event>)
    requires ValidRun(run) && run != [] && run[|run| - 1].Complete? && Commits(run, |run| - 1)
    ensures var before, id, response := run[..|run| - 1], run[|run| - 1].id, run[|run| - 1].response;
            && ValidRun(before) && id < |before| && Spawns(before[id])
            && var prior, shown := After(before).view, After(run).view;
               && !shown.loading && shown.selected == prior.selected
               && match response
                  case Listed(files) =>
                    shown.currentPath == PathAsked(before, id) && shown.files == files && shown.error == prior.error
                  case Failed(message) =>
                    shown.currentPath == prior.currentPath && shown.files == prior.files && shown.error == Some(message)
  {
    CommitsIffCurrent(run);
    FuturePath(run[..|run| - 1], run[|run| - 1].id);
  }

  /** A future that begins clears the error and shows that it is loading; an error that is set is shown. */
  lemma StartAndError(run: seq<Event>)
    requires ValidRun(run) && run != []
    ensures var prior, shown, e := After(run[..|run| - 1]).view, After(run).view, run[|run| - 1];
            && (e.Start? ==> shown == prior.(loading := true, error := None))
            && (e.SetError? ==> shown == prior.(error := Some(e.message)))
            && (Spawns(e) ==> shown == prior)
            && (e.Clear? ==> shown == View("", [], false, None, []))
  {
  }

  // ---------------------------------------------------------------- quiescence

  /** The start at `j` turned `loading` on, and nothing after it turned it off. */
  predicate Lights(run: seq<Event>, j: nat) {
    && j < |run| && run[j].Start?
    && forall k :: j < k < |run| ==> !run[k].Clear? && !Commits(run, k)
  }

  lemma {:induction false} LoadingHasCause(run: seq<Event>)
    requires ValidRun(run)
    ensures After(run).view.loading <==> exists j :: Lights(run, j)
    decreases |run|
  {
    if run != [] {
      var before, e := run[..|run| - 1], run[|run| - 1];
      LoadingHasCause(before);
      LightsStep(run);
      if e.Complete? {
        CommitsIffCurrent(run);
      }
      if e.Start? {
        assert Lights(run, |run| - 1);
      }
    }
  }

  /** How the last event changes what lights the spinner. */
  lemma LightsStep(run: seq<Event>)
    requires run != []
    ensures var before, e := run[..|run| - 1], run[|run| - 1];
            forall j: nat :: j < |run| - 1 ==>
              (Lights(run, j) <==> Lights(before, j) && !e.Clear? && !Commits(run, |run| - 1))
  {
    var before, e := run[..|run| - 1], run[|run| - 1];
    forall k | 0 <= k < |before|
      ensures run[k] == before[k] && (Commits(run, k) <==> Commits(before, k))
    {
      assert run[..k] == before[..k];
    }
    forall j: nat | j < |run| - 1
      ensures Lights(run, j) <==> Lights(before, j) && !e.Clear? && !Commits(run, |run| - 1)
    {
      if Lights(before, j) && !e.Clear? && !Commits(run, |run| - 1) {
        forall k | j < k < |run|
          ensures !run[k].Clear? && !Commits(run, k)
        {
          if k < |before| {
            assert run[k] == before[k];
          }
        }
      }
      if Lights(run, j) {
        forall k | j < k < |before|
          ensures !before[k].Clear? && !Commits(before, k)
        {
          assert run[k] == before[k];
        }
      }
    }
  }

  lemma ClockCounts(run: seq<Event>)
    requires ValidRun(run)
    ensures After(run).clock == |run|
  {
    RunKeepsInv(run);
  }

  /** What became of the future spawned at `id`: it is in flight, or it started at `p` and completed at `q`. */
  lemma {:induction false} Fate(run: seq<Event>, id: nat) returns (p: nat, q: nat)
    requires ValidRun(run) && id < |run| && Spawns(run[id])
    ensures (id in After(run).futures ==> After(run).futures[id].started) ==>
              id < p < |run| && run[p] == Start(id)
    ensures id !in After(run).futures ==> p < q < |run| && run[q].Complete? && run[q].id == id
    ensures forall k :: id < k < |run| && run[k] == Start(id) ==>
              k == p && (id in After(run).futures ==> After(run).futures[id].started)
    decreases |run|
  {
    hide Step, RunInv;
    var before, e := run[..|run| - 1], run[|run| - 1];
    ClockCounts(before);
    FutureStep(After(before), e, id);
    p, q := 0, 0;
    if id < |run| - 1 {
      assert before[id] == run[id];
      p, q := Fate(before, id);
      if e == Start(id) {
        p := |run| - 1;
      } else if e.Complete? && e.id == id {
        q := |run| - 1;
      }
    }
  }

  /** The last start of the run. */
  lemma {:induction false} LastStart(run: seq<Event>, j: nat) returns (last: nat)
    requires j < |run| && run[j].Start?
    ensures j <= last < |run| && run[last].Start?
    ensures forall k :: last < k < |run| ==> !run[k].Start?
    decreases |run| - j
  {
    if k: nat :| j < k < |run| && run[k].Start? {
      last := LastStart(run, k);
    } else {
      last := j;
    }
  }

  /** The future started at `j` was already superseded when it started, and no start comes after. */
  predicate StaleLastStart(run: seq<Event>, j: nat) {
    && j < |run| && run[j].Start? && run[j].id < j
    && Bumps(run[..j], run[j].id + 1) > 0
    && forall k :: j < k < |run| ==> !run[k].Start?
  }

  lemma {:induction false} SomeBump(run: seq<Event>, from: nat) returns (b: nat)
    requires from <= |run| && Bumps(run, from) > 0
    ensures from <= b < |run| && IsBump(run[b])
    decreases |run|
  {
    if IsBump(run[|run| - 1]) {
      b := |run| - 1;
    } else {
      b := SomeBump(run[..|run| - 1], from);
    }
  }

  lemma StartWasSpawned(run: seq<Event>, j: nat)
    requires ValidRun(run) && j < |run| && run[j].Start?
    ensures run[j].id < j && Spawns(run[run[j].id])
  {
    PrefixValid(run, j + 1);
    RunKeepsInv(run[..j + 1][..j]);
    assert run[..j + 1][..j] == run[..j];
  }

  /** With nothing in flight, a last start that lights the spinner was stale from the beginning. */
  lemma LightingStartIsStale(run: seq<Event>, j: nat)
    requires ValidRun(run) && After(run).futures == map[]
    requires Lights(run, j) && forall k :: j < k < |run| ==> !run[k].Start?
    ensures StaleLastStart(run, j)
  {
    var id := run[j].id;
    StartWasSpawned(run, j);
    var p, q := Fate(run, id);
    var b := SomeBumpBefore(run, id, q);
    if b > j {
      var _, _ := Fate(run, b);
    } else {
      assert b < j by { assert run[j].Start?; }
      assert run[..j][b] == run[b];
      BumpSince(run[..j], id + 1, b);
    }
  }

  lemma SomeBumpBefore(run: seq<Event>, id: nat, q: nat) returns (b: nat)
    requires id < q < |run| && run[q].Complete? && run[q].id == id && !Commits(run, q)
    ensures id < b < q && IsBump(run[b])
  {
    b := SomeBump(run[..q], id + 1);
  }

  /** With nothing in flight the spinner is on exactly when the last future to start had been superseded
      before it started, and no clear or commit came after. */
  lemma QuiescentLoading(run: seq<Event>)
    requires ValidRun(run) && After(run).futures == map[]
    ensures After(run).view.loading <==> exists j :: StaleLastStart(run, j) && Lights(run, j)
  {
    LoadingHasCause(run);
    if j :| Lights(run, j) {
      var last := LastStart(run, j);
      assert Lights(run, last);
      LightingStartIsStale(run, last);
    }
  }

  /** Futures start in the order they were issued, and each before the next clear. */
  predicate Disciplined(run: seq<Event>) {
    forall j :: 0 <= j < |run| && run[j].Start? ==>
      && (forall i :: 0 <= i < j && run[i].Start? ==> run[i].id < run[j].id)
      && (forall c :: run[j].id < c < j ==> !run[c].Clear?)
  }

  /** In such a run the spinner is off once nothing is in flight. */
  lemma DisciplinedRunsSettle(run: seq<Event>)
    requires ValidRun(run) && After(run).futures == map[] && Disciplined(run)
    ensures !After(run).view.loading
  {
    QuiescentLoading(run);
    if j :| StaleLastStart(run, j) {
      StaleStartBreaksDiscipline(run, j);
    }
  }

  /** A stale last start was overtaken by a clear, or by a navigation that started before it. */
  lemma StaleStartBreaksDiscipline(run: seq<Event>, j: nat)
    requires ValidRun(run) && After(run).futures == map[] && StaleLastStart(run, j)
    ensures !Disciplined(run)
  {
    var b := SomeBump(run[..j], run[j].id + 1);
    assert run[..j][b] == run[b];
    if !run[b].Clear? {
      var p, _ := Fate(run, b);
      assert p < j && run[p].Start? && run[p].id > run[j].id;
    }
  }

  lemma Extend(run: seq<Event>, e: Event) returns (longer: seq<Event>)
    requires ValidRun(run) && Enabled(After(run), e)
    ensures longer == run + [e] && ValidRun(longer) && After(longer) == Step(After(run), e)
  {
    longer := run + [e];
    assert longer[..|longer| - 1] == run;
  }

  /** The start-before-clear condition is needed: a start after `clear` leaves the spinner on for good. */
  lemma LateStartStaysLoading(path: string, response: Response)
    ensures var run := [Navigate(path), Clear, Start(0), Complete(0, response)];
            ValidRun(run) && After(run).futures == map[] && After(run).view.loading
  {
    var a := Extend([], Navigate(path));
    var b := Extend(a, Clear);
    var c := Extend(b, Start(0));
    var run := Extend(c, Complete(0, response));
    assert run == [Navigate(path), Clear, Start(0), Complete(0, response)];
  }

  /** So is the issue order: the older of two futures starting last leaves the spinner on. */
  lemma ReorderedStartStaysLoading(path: string, path': string, response: Response)
    ensures var run := [Navigate(path), Navigate(path'), Start(1), Complete(1, response), Start(0),
                        Complete(0, response)];
            ValidRun(run) && After(run).futures == map[] && After(run).view.loading
  {
    var a := Extend([], Navigate(path));
    var b := Extend(a, Navigate(path'));
    var c := Extend(b, Start(1));
    var d := Extend(c, Complete(1, response));
    var e := Extend(d, Start(0));
    var run := Extend(e, Complete(0, response));
    assert run == [Navigate(path), Navigate(path'), Start(1), Complete(1, response), Start(0), Complete(0, response)];
  }
}
