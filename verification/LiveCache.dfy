/** The revision-keyed caches: writers write then bump, readers load the revision, look up, query and store. */
module LiveCache {
  import opened Log

  datatype Entry<+D> = Entry(rev: nat, data: D)

  /** A reader between its atomic steps; one that is not in the table is idle. */
  datatype Phase<+D> = Loaded(rev: nat) | Missed(rev: nat) | Fetched(rev: nat, data: D)

  /**
   * `writes` is every write the database has taken, `bumps` the indices of the writes each revision bump follows;
   * the revision counter is the number of bumps. `answers` records what readers were given, and at what revision.
   */
  datatype State<W, D> = State(writes: seq<W>, bumps: seq<set<nat>>, cache: Option<Entry<D>>,
                               readers: map<int, Phase<D>>, answers: seq<Entry<D>>)
  {
    function Revision(): nat { |bumps| }
  }

  datatype Step<+W> =
    | Write(w: W)
    | Bump(covers: set<nat>)
    | Load(reader: int)
    | LookUp(reader: int)
    | Query(reader: int)
    | Store(reader: int)

  predicate Enabled<W, D>(s: State<W, D>, step: Step<W>) {
    match step
    case Write(_) => true
    case Bump(covers) => forall i :: i in covers ==> i < |s.writes|
    case Load(r) => r !in s.readers
    case LookUp(r) => r in s.readers && s.readers[r].Loaded?
    case Query(r) => r in s.readers && s.readers[r].Missed?
    case Store(r) => r in s.readers && s.readers[r].Fetched?
  }

  function Hit<D>(cache: Option<Entry<D>>, rev: nat): Option<D> {
    if cache.Some? && cache.value.rev == rev then Some(cache.value.data) else None
  }

  /** `view` is what a query computes from the writes so far; None is a failed query, which is never cached. */
  function Next<W, D>(s: State<W, D>, step: Step<W>, view: seq<W> -> Option<D>): State<W, D>
    requires Enabled(s, step)
  {
    match step
    case Write(w) => s.(writes := s.writes + [w])
    case Bump(covers) => s.(bumps := s.bumps + [covers])
    case Load(r) => s.(readers := s.readers[r := Loaded(s.Revision())])
    case LookUp(r) =>
      var rev := s.readers[r].rev;
      var hit := Hit(s.cache, rev);
      if hit.Some? then s.(readers := s.readers - {r}, answers := s.answers + [Entry(rev, hit.value)])
      else s.(readers := s.readers[r := Missed(rev)])
    case Query(r) =>
      var data := view(s.writes);
      if data.None? then s.(readers := s.readers - {r})
      else s.(readers := s.readers[r := Fetched(s.readers[r].rev, data.value)])
    case Store(r) =>
      var entry := Entry(s.readers[r].rev, s.readers[r].data);
      s.(cache := Some(entry), readers := s.readers - {r}, answers := s.answers + [entry])
  }

  function Start<W, D>(): State<W, D> { State([], [], None, map[], []) }

  ghost predicate Run<W, D>(states: seq<State<W, D>>, steps: seq<Step<W>>, view: seq<W> -> Option<D>) {
    && |states| == |steps| + 1
    && states[0] == Start()
    && forall i :: 0 <= i < |steps| ==> Enabled(states[i], steps[i]) && states[i + 1] == Next(states[i], steps[i], view)
  }

  // ---------------------------------------------------------------- coherence

  /** The first n writes include every write that the first `rev` bumps follow. */
  ghost predicate Covers<W, D>(s: State<W, D>, rev: nat, n: nat) {
    && rev <= |s.bumps| && n <= |s.writes|
    && forall k, i :: 0 <= k < rev && i in s.bumps[k] ==> i < n
  }

  /** The data was computed from a prefix of the writes that includes everything its revision counts. */
  ghost predicate Coherent<W, D>(s: State<W, D>, e: Entry<D>, view: seq<W> -> Option<D>) {
    exists n: nat :: Covers(s, e.rev, n) && view(s.writes[..n]) == Some(e.data)
  }

  ghost predicate Inv<W, D>(s: State<W, D>, view: seq<W> -> Option<D>) {
    && (forall k, i :: 0 <= k < |s.bumps| && i in s.bumps[k] ==> i < |s.writes|)
    && (s.cache.Some? ==> Coherent(s, s.cache.value, view))
    && (forall r :: r in s.readers ==> s.readers[r].rev <= |s.bumps|)
    && (forall r :: r in s.readers && s.readers[r].Fetched? ==>
                      Coherent(s, Entry(s.readers[r].rev, s.readers[r].data), view))
    && (forall k :: 0 <= k < |s.answers| ==> Coherent(s, s.answers[k], view))
  }

  /** Later writes and bumps do not make data incoherent with the revision it was computed for. */
  lemma CoherentStays<W, D>(s: State<W, D>, t: State<W, D>, e: Entry<D>, view: seq<W> -> Option<D>)
    requires Coherent(s, e, view) && s.writes <= t.writes && s.bumps <= t.bumps
    ensures Coherent(t, e, view)
  {
    var n: nat :| Covers(s, e.rev, n) && view(s.writes[..n]) == Some(e.data);
    assert t.writes[..n] == s.writes[..n];
    assert Covers(t, e.rev, n);
  }

  lemma AllStay<W, D>(s: State<W, D>, t: State<W, D>, view: seq<W> -> Option<D>)
    requires Inv(s, view) && s.writes <= t.writes && s.bumps <= t.bumps
    ensures s.cache.Some? ==> Coherent(t, s.cache.value, view)
    ensures forall r :: r in s.readers && s.readers[r].Fetched? ==>
                          Coherent(t, Entry(s.readers[r].rev, s.readers[r].data), view)
    ensures forall k :: 0 <= k < |s.answers| ==> Coherent(t, s.answers[k], view)
  {
    if s.cache.Some? {
      CoherentStays(s, t, s.cache.value, view);
    }
    forall r | r in s.readers && s.readers[r].Fetched?
      ensures Coherent(t, Entry(s.readers[r].rev, s.readers[r].data), view)
    {
      CoherentStays(s, t, Entry(s.readers[r].rev, s.readers[r].data), view);
    }
    forall k | 0 <= k < |s.answers| ensures Coherent(t, s.answers[k], view) {
      CoherentStays(s, t, s.answers[k], view);
    }
  }

  /** A query sees every write whose bump happened before it, in particular before the revision was loaded. */
  lemma QueryIsCoherent<W, D>(s: State<W, D>, rev: nat, view: seq<W> -> Option<D>)
    requires Inv(s, view) && rev <= |s.bumps| && view(s.writes).Some?
    ensures Coherent(s, Entry(rev, view(s.writes).value), view)
  {
    var n := |s.writes|;
    assert s.writes[..n] == s.writes;
    assert Covers(s, rev, n);
  }

  lemma NextKeepsCoherence<W, D>(s: State<W, D>, step: Step<W>, view: seq<W> -> Option<D>)
    requires Inv(s, view) && Enabled(s, step)
    ensures Inv(Next(s, step, view), view)
  {
    var t := Next(s, step, view);
    AllStay(s, t, view);
    if step.Query? && view(s.writes).Some? {
      QueryIsCoherent(s, s.readers[step.reader].rev, view);
      CoherentStays(s, t, Entry(s.readers[step.reader].rev, view(s.writes).value), view);
    }
  }

  lemma {:induction false} RunIsCoherent<W, D>(states: seq<State<W, D>>, steps: seq<Step<W>>,
                                               view: seq<W> -> Option<D>, k: nat)
    requires Run(states, steps, view) && k <= |steps|
    ensures Inv(states[k], view)
  {
    if k > 0 {
      RunIsCoherent(states, steps, view, k - 1);
      NextKeepsCoherence(states[k - 1], steps[k - 1], view);
    }
  }

  /** Whatever the interleaving, a hit returns data that reflects every write whose bump its revision counts. */
  lemma HitsReflectCountedWrites<W, D>(states: seq<State<W, D>>, steps: seq<Step<W>>, view: seq<W> -> Option<D>,
                                       k: nat, rev: nat)
    requires Run(states, steps, view) && k <= |steps| && Hit(states[k].cache, rev).Some?
    ensures exists n: nat :: Covers(states[k], rev, n)
                             && view(states[k].writes[..n]) == Some(Hit(states[k].cache, rev).value)
  {
    RunIsCoherent(states, steps, view, k);
    assert Coherent(states[k], states[k].cache.value, view);
  }

  ghost predicate Counted<W, D>(s: State<W, D>, write: int) {
    exists k :: 0 <= k < |s.bumps| && write in s.bumps[k]
  }

  /** Every write has been followed by a bump. */
  ghost predicate Settled<W, D>(s: State<W, D>) { forall i :: 0 <= i < |s.writes| ==> Counted(s, i) }

  lemma SettledIsCurrent<W, D>(s: State<W, D>, e: Entry<D>, view: seq<W> -> Option<D>)
    requires Coherent(s, e, view) && e.rev == s.Revision() && Settled(s)
    ensures view(s.writes) == Some(e.data)
  {
    var n: nat :| Covers(s, e.rev, n) && view(s.writes[..n]) == Some(e.data);
    assert n < |s.writes| ==> Counted(s, n);
    assert s.writes[..n] == s.writes;
  }

  /** Once every write has been followed by its bump, a hit at the current revision is exactly the current data. */
  lemma SettledHitIsCurrent<W, D>(states: seq<State<W, D>>, steps: seq<Step<W>>, view: seq<W> -> Option<D>, k: nat)
    requires Run(states, steps, view) && k <= |steps|
    requires Hit(states[k].cache, states[k].Revision()).Some? && Settled(states[k])
    ensures view(states[k].writes) == Hit(states[k].cache, states[k].Revision())
  {
    RunIsCoherent(states, steps, view, k);
    SettledIsCurrent(states[k], states[k].cache.value, view);
  }

  /** Every answer any reader ever got, from the cache or from its own query, is coherent in this sense. */
  lemma AnswersReflectCountedWrites<W, D>(states: seq<State<W, D>>, steps: seq<Step<W>>, view: seq<W> -> Option<D>,
                                          k: nat, a: nat)
    requires Run(states, steps, view) && k <= |steps| && a < |states[k].answers|
    ensures Coherent(states[k], states[k].answers[a], view)
  {
    RunIsCoherent(states, steps, view, k);
  }

  /** A lookup is answered at once exactly when what is cached was filed under the reader's own revision. */
  lemma AnsweredExactlyWhenFiled<W, D>(s: State<W, D>, reader: int, view: seq<W> -> Option<D>)
    requires Enabled(s, LookUp(reader))
    ensures var t, rev := Next(s, LookUp(reader), view), s.readers[reader].rev;
      && (reader !in t.readers <==> exists data :: s.cache == Some(Entry(rev, data)))
      && (if reader in t.readers then t == s.(readers := s.readers[reader := Missed(rev)])
          else t == s.(readers := s.readers - {reader}, answers := s.answers + [s.cache.value]))
  {
    var t, rev := Next(s, LookUp(reader), view), s.readers[reader].rev;
    if reader !in t.readers {
      assert s.cache == Some(Entry(rev, s.cache.value.data));
    }
  }

  /** A bump puts out of reach whatever was cached before it. */
  lemma BumpRetiresTheCache<W, D>(s: State<W, D>, covers: set<nat>, reader: int, view: seq<W> -> Option<D>)
    requires Inv(s, view) && Enabled(s, Bump(covers)) && reader !in s.readers
    ensures var loaded := Next(Next(s, Bump(covers), view), Load(reader), view);
      && Enabled(loaded, LookUp(reader)) && loaded.cache == s.cache
      && reader in Next(loaded, LookUp(reader), view).readers
  {
  }

  /** What a reader files under the current revision answers the next reader, unless a bump comes in between. */
  lemma FiledAnswersTheNext<W, D>(s: State<W, D>, reader: int, next: int, view: seq<W> -> Option<D>)
    requires Enabled(s, Store(reader)) && s.readers[reader].rev == |s.bumps| && next !in s.readers
    ensures var loaded := Next(Next(s, Store(reader), view), Load(next), view);
      && Enabled(loaded, LookUp(next))
      && Next(loaded, LookUp(next), view).answers ==
         loaded.answers + [Entry(|s.bumps|, s.readers[reader].data)]
  {
  }

  // ---------------------------------------------------------------- the shared object

  /**
   * The revision counter, its dirty flag and the cache slot. Each method is one atomic action of a handler; the ghost
   * history says which step of the protocol it takes. Writes and queries reach the database alone, so those two
   * actions are ghost.
   */
  class RevisionCache<W, D> {
    var revision: nat
    var dirty: bool
    var cache: Option<Entry<D>>
    ghost var history: State<W, D>
    ghost const view: seq<W> -> Option<D>

    ghost predicate Valid()
      reads this
    {
      Inv(history, view) && revision == history.Revision() && cache == history.cache
    }

    constructor (ghost view: seq<W> -> Option<D>)
      ensures Valid() && history == Start() && !dirty && this.view == view
    {
      revision, dirty, cache := 0, false, None;
      history := Start();
      this.view := view;
    }

    /** The database takes a write. */
    ghost method RecordWrite(w: W)
      requires Valid()
      modifies this`history
      ensures Valid() && history == Next(old(history), Write(w), view)
    {
      NextKeepsCoherence(history, Write(w), view);
      history := Next(history, Write(w), view);
    }

    /** The database answers a reader that missed, from the writes it has taken by now; None is a failed query. */
    ghost method RecordQuery(reader: int, fetched: Option<D>)
      requires Valid() && Enabled(history, Query(reader)) && fetched == view(history.writes)
      modifies this`history
      ensures Valid() && history == Next(old(history), Query(reader), view)
      ensures fetched.None? ==> reader !in history.readers
      ensures fetched.Some? ==>
                reader in history.readers
                && history.readers[reader] == Fetched(old(history).readers[reader].rev, fetched.value)
    {
      NextKeepsCoherence(history, Query(reader), view);
      history := Next(history, Query(reader), view);
    }

    /** Runs after the writes it covers. */
    method BumpRevision(ghost covers: set<nat>)
      requires Valid() && Enabled(history, Bump(covers))
      modifies this
      ensures Valid() && dirty && history == Next(old(history), Bump(covers), view)
      ensures revision == old(revision) + 1 && cache == old(cache)
    {
      NextKeepsCoherence(history, Bump(covers), view);
      history := Next(history, Bump(covers), view);
      revision := revision + 1;
      dirty := true;
    }

    method LoadRevision(ghost reader: int) returns (rev: nat)
      requires Valid() && Enabled(history, Load(reader))
      modifies this
      ensures Valid() && history == Next(old(history), Load(reader), view) && dirty == old(dirty)
      ensures history.readers[reader] == Loaded(rev)
    {
      NextKeepsCoherence(history, Load(reader), view);
      history := Next(history, Load(reader), view);
      rev := revision;
    }

    /** Returns the cached data only when it was filed under the revision the reader loaded. */
    method Cached(ghost reader: int, rev: nat) returns (hit: Option<D>)
      requires Valid() && Enabled(history, LookUp(reader)) && history.readers[reader].rev == rev
      modifies this
      ensures Valid() && history == Next(old(history), LookUp(reader), view) && dirty == old(dirty)
      ensures hit == Hit(old(cache), rev)
      ensures hit.Some? ==> Coherent(history, Entry(rev, hit.value), view)
    {
      NextKeepsCoherence(history, LookUp(reader), view);
      hit := None;
      if cache.Some? {
        if cache.value.rev == rev {
          hit := Some(cache.value.data);
        }
      }
      history := Next(history, LookUp(reader), view);
    }

    /** Files the data under the revision loaded before the query, not under the current one. */
    method File(ghost reader: int, rev: nat, data: D)
      requires Valid() && Enabled(history, Store(reader)) && history.readers[reader] == Fetched(rev, data)
      modifies this
      ensures Valid() && history == Next(old(history), Store(reader), view) && dirty == old(dirty)
      ensures cache == Some(Entry(rev, data))
    {
      NextKeepsCoherence(history, Store(reader), view);
      history := Next(history, Store(reader), view);
      cache := Some(Entry(rev, data));
    }

    /** The part of a reader behind a miss: query, then file what came back under the revision loaded before. */
    method Refresh(ghost reader: int, rev: nat, fetched: Option<D>)
      requires Valid() && Enabled(history, Query(reader)) && history.readers[reader].rev == rev
      requires fetched == view(history.writes)
      modifies this
      ensures Valid() && revision == old(revision) && dirty == old(dirty)
      ensures history.writes == old(history).writes && history.bumps == old(history).bumps
      ensures history.readers == old(history).readers - {reader}
      ensures cache == if fetched.Some? then Some(Entry(rev, fetched.value)) else old(cache)
    {
      RecordQuery(reader, fetched);
      if fetched.Some? {
        File(reader, rev, fetched.value);
      }
    }

    /**
     * One reader from load to file with nothing in between; `fetched` is what its query would return. The answer is
     * coherent with the revision, and once every write has been bumped it is what a fresh query returns.
     */
    method Read(ghost reader: int, fetched: Option<D>) returns (answer: Option<D>)
      requires Valid() && reader !in history.readers && fetched == view(history.writes)
      modifies this
      ensures Valid() && revision == old(revision) && dirty == old(dirty)
      ensures history.writes == old(history).writes && history.bumps == old(history).bumps
      ensures history.readers == old(history).readers
      ensures var hit := Hit(old(cache), revision);
        && answer == (if hit.Some? then hit else fetched)
        && cache == (if hit.None? && fetched.Some? then Some(Entry(revision, fetched.value)) else old(cache))
      ensures answer.Some? ==> Coherent(history, Entry(revision, answer.value), view)
      ensures answer.Some? && Settled(history) ==> answer == fetched
    {
      var rev := LoadRevision(reader);
      answer := Cached(reader, rev);
      if answer.None? {
        Refresh(reader, rev, fetched);
        answer := fetched;
      } else if Settled(history) {
        SettledIsCurrent(history, Entry(rev, answer.value), view);
      }
      assert history.readers == old(history).readers;
    }
  }
}
