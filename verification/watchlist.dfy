/**
 * The watchlist: included and excluded file patterns plus the tracked files
 * with their last seen size, modification time and pending diff.
 *
 * Pattern lists are modelled as multisets: order only matters for printing,
 * but a hand-edited file can repeat a pattern, and the source treats
 * repeats in two ways. Adding a pattern rebuilds the list as
 * `list(set(...) | {pattern})`, which drops repeats; taking one out is
 * `list.remove`, which drops a single occurrence. Globbing, `expanduser`,
 * `getsize`/`getmtime` and the JSON file are parameters or left out.
 */
module Watchlist {
  import opened Wrappers

  /** A diff marker; `Unknown` is any other text found in a stored file. */
  datatype Diff = NoDiff | Added | Removed | Changed | Unknown(text: string)
  {
    predicate Known() { !Unknown? }
  }

  datatype FileMeta = FileMeta(size: int, mtime: real, diff: Diff)

  /** What the filesystem reports for a file. */
  datatype Stat = Stat(size: int, mtime: real)

  type Tracked = map<string, FileMeta>

  datatype Data = Data(version: Option<int>, included: multiset<string>, excluded: multiset<string>, tracked: Tracked)

  /** The exit code `typer.Exit(code=1)` carries. */
  const ExitCode: int := 1

  const CurrentVersion: int := 2

  function DefaultData(): (r: Data)
    ensures r.version == Some(CurrentVersion)
    ensures r.included == multiset{} && r.excluded == multiset{} && r.tracked == map[]
  {
    Data(Some(CurrentVersion), multiset{}, multiset{}, map[])
  }

  // ---------------------------------------------------------------------
  // Upgrade and validation
  // ---------------------------------------------------------------------

  /** A stored file without a version is a version-1 file. */
  function Upgrade(d: Data): (r: (Data, bool))
    ensures r.1 <==> d.version.GetOr(1) < CurrentVersion
    ensures r.1 ==> r.0 == d.(version := Some(CurrentVersion))
    ensures !r.1 ==> r.0 == d
    ensures r.0.version.GetOr(1) >= CurrentVersion
  {
    if d.version.GetOr(1) < 2 then (d.(version := Some(2)), true) else (d, false)
  }

  lemma UpgradeIdempotent(d: Data)
    ensures Upgrade(Upgrade(d).0) == (Upgrade(d).0, false)
  {
  }

  /** The distinct patterns of a list, `set(...)`. */
  function Patterns(m: multiset<string>): (r: set<string>)
    ensures forall p :: p in r <==> p in m
  {
    set p | p in m
  }

  /** No pattern is both included and excluded. */
  predicate Disjoint(d: Data) { Patterns(d.included) * Patterns(d.excluded) == {} }

  /** A list without repeats. */
  predicate NoRepeats(m: multiset<string>) { forall p | p in m :: m[p] <= 1 }

  /** The shape every list the source writes has: no pattern repeated. */
  predicate Canonical(d: Data) { NoRepeats(d.included) && NoRepeats(d.excluded) }

  predicate DiffsKnown(t: Tracked) { forall f :: f in t ==> t[f].diff.Known() }

  function Validate(d: Data): (r: bool)
    ensures r <==> Disjoint(d) && DiffsKnown(d.tracked)
  {
    if Patterns(d.included) * Patterns(d.excluded) != {} then false
    else if exists f :: f in d.tracked && !d.tracked[f].diff.Known() then false
    else true
  }

  lemma DefaultValid()
    ensures Validate(DefaultData()) && Canonical(DefaultData())
  {
  }

  // ---------------------------------------------------------------------
  // Patterns
  // ---------------------------------------------------------------------

  /**
   * A pattern is accepted once home-directory expansion (`expand`, left
   * abstract) makes it absolute; otherwise the command exits with code 1.
   */
  function ValidatePattern(expand: string -> string, pattern: string): (r: Result<string, int>)
    ensures r.Success? <==> |expand(pattern)| > 0 && expand(pattern)[0] == '/'
    ensures r.Success? ==> r.value == expand(pattern)
    ensures r.Failure? ==> r.error == ExitCode
  {
    var p := expand(pattern);
    if |p| > 0 && p[0] == '/' then Success(p) else Failure(ExitCode)
  }

  /** `list(set(m) | {p})`: the list again, without repeats, with `p` added. */
  function Relist(m: multiset<string>, p: string): (r: multiset<string>)
    ensures forall x :: r[x] == if x in m || x == p then 1 else 0
  {
    multiset(Patterns(m) + {p})
  }

  /**
   * Adds an included pattern. A pattern that was excluded loses one
   * occurrence from the excluded list (`list.remove`).
   */
  function Include(d: Data, p: string): (r: Data)
    ensures p in r.included
    ensures p in d.included ==> r == d
    ensures p !in d.included ==> r.included == Relist(d.included, p) && NoRepeats(r.included)
    ensures p !in d.included ==> r.excluded == d.excluded - multiset{p}
    ensures Patterns(r.included) == Patterns(d.included) + {p}
    ensures r.version == d.version && r.tracked == d.tracked
  {
    if p in d.included then d
    else if p in d.excluded then d.(excluded := d.excluded - multiset{p}, included := Relist(d.included, p))
    else d.(included := Relist(d.included, p))
  }

  /** Adds an excluded pattern, taking one occurrence of it out of the included ones. */
  function Exclude(d: Data, p: string): (r: Data)
    ensures p in r.excluded
    ensures p in d.excluded ==> r == d
    ensures p !in d.excluded ==> r.excluded == Relist(d.excluded, p) && NoRepeats(r.excluded)
    ensures p !in d.excluded ==> r.included == d.included - multiset{p}
    ensures Patterns(r.excluded) == Patterns(d.excluded) + {p}
    ensures r.version == d.version && r.tracked == d.tracked
  {
    if p in d.excluded then d
    else if p in d.included then d.(included := d.included - multiset{p}, excluded := Relist(d.excluded, p))
    else d.(excluded := Relist(d.excluded, p))
  }

  /** Drops one occurrence of a pattern from the included ones, else from the excluded ones. */
  function Remove(d: Data, p: string): (r: Data)
    ensures p in d.included ==> r == d.(included := d.included - multiset{p})
    ensures p in d.included ==> r.included[p] == d.included[p] - 1
    ensures p !in d.included && p in d.excluded ==> r == d.(excluded := d.excluded - multiset{p})
    ensures p !in d.included && p !in d.excluded ==> r == d
  {
    if p in d.included then d.(included := d.included - multiset{p})
    else if p in d.excluded then d.(excluded := d.excluded - multiset{p})
    else d
  }

  /** The command-level `include`: validation first, then the rule change. */
  function IncludePattern(d: Data, expand: string -> string, pattern: string): (r: Result<Data, int>)
    ensures ValidatePattern(expand, pattern).Failure? <==> r.Failure?
    ensures r.Success? ==> r.value == Include(d, expand(pattern))
  {
    match ValidatePattern(expand, pattern)
    case Failure(e) => Failure(e)
    case Success(p) => Success(Include(d, p))
  }

  function ExcludePattern(d: Data, expand: string -> string, pattern: string): (r: Result<Data, int>)
    ensures ValidatePattern(expand, pattern).Failure? <==> r.Failure?
    ensures r.Success? ==> r.value == Exclude(d, expand(pattern))
  {
    match ValidatePattern(expand, pattern)
    case Failure(e) => Failure(e)
    case Success(p) => Success(Exclude(d, p))
  }

  function RemovePattern(d: Data, expand: string -> string, pattern: string): (r: Result<Data, int>)
    ensures ValidatePattern(expand, pattern).Failure? <==> r.Failure?
    ensures r.Success? ==> r.value == Remove(d, expand(pattern))
  {
    match ValidatePattern(expand, pattern)
    case Failure(e) => Failure(e)
    case Success(p) => Success(Remove(d, p))
  }

  /** On disjoint rules without repeats, an included pattern is no longer excluded. */
  lemma IncludeKeepsDisjoint(d: Data, p: string)
    requires Disjoint(d) && Canonical(d)
    ensures Disjoint(Include(d, p)) && Canonical(Include(d, p))
    ensures p !in Include(d, p).excluded
  {
    assert p !in Patterns(d.included) * Patterns(d.excluded);
  }

  lemma ExcludeKeepsDisjoint(d: Data, p: string)
    requires Disjoint(d) && Canonical(d)
    ensures Disjoint(Exclude(d, p)) && Canonical(Exclude(d, p))
    ensures p !in Exclude(d, p).included
  {
    assert p !in Patterns(d.included) * Patterns(d.excluded);
  }

  lemma RemoveKeepsDisjoint(d: Data, p: string)
    requires Disjoint(d) && Canonical(d)
    ensures Disjoint(Remove(d, p)) && Canonical(Remove(d, p))
    ensures p !in Remove(d, p).included && p !in Remove(d, p).excluded
  {
    assert p !in Patterns(d.included) * Patterns(d.excluded);
  }

  /** Rule changes keep a valid watchlist without repeats valid and without repeats. */
  lemma RuleChangesKeepValid(d: Data, p: string)
    requires Validate(d) && Canonical(d)
    ensures Validate(Include(d, p)) && Canonical(Include(d, p))
    ensures Validate(Exclude(d, p)) && Canonical(Exclude(d, p))
    ensures Validate(Remove(d, p)) && Canonical(Remove(d, p))
  {
    IncludeKeepsDisjoint(d, p);
    ExcludeKeepsDisjoint(d, p);
    RemoveKeepsDisjoint(d, p);
  }

  /**
   * On a hand-edited file that excludes a pattern twice, including it takes
   * out only one occurrence, so the pattern ends up both included and
   * excluded and the next validation fails.
   */
  lemma IncludeOverRepeatedExclusion(d: Data, p: string)
    requires p !in d.included && d.excluded[p] >= 2
    ensures p in Include(d, p).included && p in Include(d, p).excluded
    ensures !Validate(Include(d, p))
  {
    var r := Include(d, p);
    assert r.excluded[p] == d.excluded[p] - 1;
    assert p in Patterns(r.included) * Patterns(r.excluded);
  }

  /** Likewise, removing a pattern listed twice leaves it listed. */
  lemma RemoveRepeatedKeepsRule(d: Data, p: string)
    requires d.included[p] >= 2
    ensures p in Remove(d, p).included
  {
  }

  /** Adding a new pattern to a list without repeats and taking it out again restores the list. */
  lemma RelistThenRemove(m: multiset<string>, p: string)
    requires NoRepeats(m) && p !in m
    ensures Relist(m, p) - multiset{p} == m
  {
    var r := Relist(m, p) - multiset{p};
    assert forall x :: r[x] == m[x] by {
      forall x ensures r[x] == m[x] {
        if x in m { assert m[x] == 1; }
      }
    }
  }

  /** Taking a pattern out of a list without repeats and adding it again restores the list. */
  lemma RemoveThenRelist(m: multiset<string>, p: string)
    requires NoRepeats(m) && p in m
    ensures Relist(m - multiset{p}, p) == m
  {
    var r := Relist(m - multiset{p}, p);
    assert forall x :: r[x] == m[x] by {
      forall x ensures r[x] == m[x] {
        if x in m { assert m[x] == 1; }
      }
    }
  }

  /** Removing a freshly added pattern restores the rules. */
  lemma IncludeThenRemove(d: Data, p: string)
    requires p !in d.included && p !in d.excluded && Canonical(d)
    ensures Remove(Include(d, p), p) == d
    ensures Remove(Exclude(d, p), p) == d
  {
    RelistThenRemove(d.included, p);
    RelistThenRemove(d.excluded, p);
  }

  /** The last rule given for a pattern wins. */
  lemma LastRuleWins(d: Data, p: string)
    requires Disjoint(d) && Canonical(d)
    ensures Exclude(Include(d, p), p) == Exclude(d, p)
    ensures Include(Exclude(d, p), p) == Include(d, p)
  {
    assert p !in Patterns(d.included) * Patterns(d.excluded);
    if p in d.excluded {
      RelistThenRemove(d.included, p);
      RemoveThenRelist(d.excluded, p);
    } else if p in d.included {
      RelistThenRemove(d.excluded, p);
      RemoveThenRelist(d.included, p);
    } else {
      RelistThenRemove(d.included, p);
      RelistThenRemove(d.excluded, p);
    }
  }

  // ---------------------------------------------------------------------
  // Tracking
  // ---------------------------------------------------------------------

  /** Every file some pattern matches; `matches` stands for the glob. */
  function Matched(patterns: set<string>, matches: string -> set<string>): (r: set<string>)
    ensures forall f :: f in r <==> exists p :: p in patterns && f in matches(p)
  {
    set p, f | p in patterns && f in matches(p) :: f
  }

  /** The files tracking keeps: included matches that no exclusion matches. */
  function Selected(d: Data, matches: string -> set<string>): (r: set<string>)
  {
    Matched(Patterns(d.included), matches) - Matched(Patterns(d.excluded), matches)
  }

  /** The entry a file gets when tracking sees it now. */
  function Fresh(s: Stat): (r: FileMeta)
    ensures r.size == s.size && r.mtime == s.mtime && r.diff == NoDiff
  {
    FileMeta(s.size, s.mtime, NoDiff)
  }

  /** How one file of the new tracked map is recorded. */
  function Entry(prev: Tracked, selected: set<string>, stat: string -> Stat, f: string): (r: FileMeta)
  {
    if f !in selected then FileMeta(0, 0.0, Removed)
    else if f !in prev then Fresh(stat(f)).(diff := Added)
    else if Fresh(stat(f)) != prev[f] then Fresh(stat(f)).(diff := Changed)
    else Fresh(stat(f))
  }

  /**
   * Re-resolves the patterns and records for each file whether it was
   * added, removed or changed since the last run.
   */
  function Track(d: Data, matches: string -> set<string>, stat: string -> Stat): (r: Data)
    ensures r.tracked.Keys == Selected(d, matches) + d.tracked.Keys
    ensures r.version == d.version && r.included == d.included && r.excluded == d.excluded
  {
    var selected := Selected(d, matches);
    d.(tracked := map f | f in selected + d.tracked.Keys :: Entry(d.tracked, selected, stat, f))
  }

  /** A file is tracked afterwards iff it is selected or was tracked before. */
  lemma TrackKeys(d: Data, matches: string -> set<string>, stat: string -> Stat, f: string)
    ensures f in Track(d, matches, stat).tracked <==>
      ((exists p :: p in d.included && f in matches(p)) && !(exists p :: p in d.excluded && f in matches(p)))
      || f in d.tracked
  {
  }

  lemma TrackAdded(d: Data, matches: string -> set<string>, stat: string -> Stat, f: string)
    requires f in Track(d, matches, stat).tracked
    ensures Track(d, matches, stat).tracked[f].diff == Added <==> f in Selected(d, matches) && f !in d.tracked
  {
  }

  /** A file that disappeared stays tracked as removed, with size and time zero. */
  lemma TrackRemoved(d: Data, matches: string -> set<string>, stat: string -> Stat, f: string)
    requires f in Track(d, matches, stat).tracked
    ensures Track(d, matches, stat).tracked[f].diff == Removed <==> f !in Selected(d, matches)
    ensures f !in Selected(d, matches) ==> Track(d, matches, stat).tracked[f] == FileMeta(0, 0.0, Removed)
  {
  }

  /**
   * A file seen before and now is changed iff its fresh entry differs from
   * the stored one — which includes any stored entry whose diff is pending.
   */
  lemma TrackChanged(d: Data, matches: string -> set<string>, stat: string -> Stat, f: string)
    requires f in Selected(d, matches) && f in d.tracked
    ensures Track(d, matches, stat).tracked[f].diff == Changed <==> Fresh(stat(f)) != d.tracked[f]
    ensures Track(d, matches, stat).tracked[f].diff == NoDiff <==> Fresh(stat(f)) == d.tracked[f]
    ensures d.tracked[f].diff != NoDiff ==> Track(d, matches, stat).tracked[f].diff == Changed
  {
  }

  /** Files present now carry their current size and time. */
  lemma TrackStat(d: Data, matches: string -> set<string>, stat: string -> Stat, f: string)
    requires f in Selected(d, matches)
    ensures Track(d, matches, stat).tracked[f].size == stat(f).size
    ensures Track(d, matches, stat).tracked[f].mtime == stat(f).mtime
  {
  }

  /** Tracking always produces diffs a later validation accepts. */
  lemma TrackDiffsKnown(d: Data, matches: string -> set<string>, stat: string -> Stat)
    ensures DiffsKnown(Track(d, matches, stat).tracked)
  {
  }

  /**
   * When everything was resolved and nothing on disk moved, tracking again
   * changes nothing.
   */
  lemma TrackStable(d: Data, matches: string -> set<string>, stat: string -> Stat)
    requires d.tracked.Keys == Selected(d, matches)
    requires forall f :: f in d.tracked ==> d.tracked[f] == Fresh(stat(f))
    ensures Track(d, matches, stat) == d
  {
    var r := Track(d, matches, stat);
    assert r.tracked == d.tracked by {
      forall f | f in r.tracked
        ensures r.tracked[f] == d.tracked[f]
      {
        assert Entry(d.tracked, Selected(d, matches), stat, f) == d.tracked[f];
      }
    }
  }

  // ---------------------------------------------------------------------
  // Diffs
  // ---------------------------------------------------------------------

  /** The tracked entries whose diff is `diff`. */
  function DiffFiles(t: Tracked, diff: Diff): (r: Tracked)
    ensures forall f :: f in r <==> f in t && t[f].diff == diff
    ensures forall f :: f in r ==> r[f] == t[f]
  {
    map f | f in t && t[f].diff == diff :: t[f]
  }

  /** On a valid watchlist, the four diff kinds split the tracked files. */
  lemma DiffFilesPartition(t: Tracked, f: string)
    requires DiffsKnown(t)
    requires f in t
    ensures f in DiffFiles(t, NoDiff) || f in DiffFiles(t, Added)
      || f in DiffFiles(t, Removed) || f in DiffFiles(t, Changed)
    ensures forall a: Diff, b: Diff :: a != b && f in DiffFiles(t, a) ==> f !in DiffFiles(t, b)
  {
  }

  /**
   * Marks one file's diff as handled: a removed file is dropped, any other
   * is set back to no diff. An untracked or already resolved file exits
   * with code 1.
   */
  function MarkResolved(d: Data, path: string): (r: Result<Data, int>)
    ensures r.Failure? <==> path !in d.tracked || d.tracked[path].diff == NoDiff
    ensures r.Failure? ==> r.error == ExitCode
    ensures r.Success? && d.tracked[path].diff == Removed ==>
      r.value == d.(tracked := d.tracked - {path})
    ensures r.Success? && d.tracked[path].diff != Removed ==>
      r.value == d.(tracked := d.tracked[path := d.tracked[path].(diff := NoDiff)])
  {
    if path !in d.tracked then Failure(ExitCode)
    else if d.tracked[path].diff == NoDiff then Failure(ExitCode)
    else if d.tracked[path].diff == Removed then Success(d.(tracked := d.tracked - {path}))
    else Success(d.(tracked := d.tracked[path := d.tracked[path].(diff := NoDiff)]))
  }

  /** After resolving, a file is in no pending diff list, and resolving again fails. */
  lemma MarkResolvedClears(d: Data, path: string, diff: Diff)
    requires MarkResolved(d, path).Success?
    requires diff != NoDiff
    ensures path !in DiffFiles(MarkResolved(d, path).value.tracked, diff)
    ensures MarkResolved(MarkResolved(d, path).value, path).Failure?
  {
  }

  /** Resolving one file leaves every other entry as it was. */
  lemma MarkResolvedOthers(d: Data, path: string, f: string)
    requires MarkResolved(d, path).Success?
    requires f != path
    ensures f in MarkResolved(d, path).value.tracked <==> f in d.tracked
    ensures f in d.tracked ==> MarkResolved(d, path).value.tracked[f] == d.tracked[f]
  {
  }
}
