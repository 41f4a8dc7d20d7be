/**
  The workspace cleaner of scripts/cleanup.py: which targets a set of
  command-line flags selects, how they are de-duplicated, how a byte count is
  given a unit, how the confirmation reply is read, and what a run removes
  and returns.

  Paths are sequences of components below the filesystem root; the
  resolution of a path to its canonical key (`Path.resolve`, which follows
  symbolic links) is a parameter.
*/
module Cleanup {

  import opened Wrappers

  type Path = seq<string>

  /** `CleanupTarget(path, is_dir)`. */
  datatype CleanupTarget = CleanupTarget(path: Path, isDir: bool)

  function Dir(root: Path, name: string): CleanupTarget
  {
    CleanupTarget(root + [name], true)
  }

  /** RUNTIME_DIRS. */
  function RuntimeDirs(root: Path): seq<CleanupTarget>
  {
    [Dir(root, "logs"), Dir(root, "outputs"), Dir(root, "tmp"), Dir(root, "data")]
  }

  /** BUILD_ARTIFACTS. */
  function BuildArtifacts(root: Path): seq<CleanupTarget>
  {
    [Dir(root, "build"), Dir(root, "dist"), Dir(root, ".pytest_cache"), Dir(root, ".benchmarks")]
  }

  /** MODEL_ARTIFACTS: the models directory and the downloaded checkpoint file. */
  function ModelArtifacts(root: Path): seq<CleanupTarget>
  {
    [Dir(root, "models"), CleanupTarget(root + ["repo", "vggt", "vggt_model.pt"], false)]
  }

  /** The parsed command line. */
  datatype Args = Args(runtime: bool, build: bool, models: bool, all: bool, dryRun: bool, yes: bool)

  /** The default rule of `parse_args`: with no group named, runtime cleanup is chosen. */
  function WithDefault(a: Args): (r: Args)
    ensures r.build == a.build && r.models == a.models && r.all == a.all
    ensures r.dryRun == a.dryRun && r.yes == a.yes
    ensures r.runtime <==> a.runtime || !(a.build || a.models || a.all)
  {
    if !(a.runtime || a.build || a.models || a.all) then a.(runtime := true) else a
  }

  /** After the default rule at least one group is selected, and applying it again changes nothing. */
  lemma DefaultSelectsSomething(a: Args)
    ensures var r := WithDefault(a); r.runtime || r.build || r.models || r.all
    ensures WithDefault(WithDefault(a)) == WithDefault(a)
    ensures (a.runtime || a.build || a.models || a.all) ==> WithDefault(a) == a
  {
  }

  /** The targets of the selected groups in the order runtime, build, models (before de-duplication). */
  function Selected(a: Args, root: Path): (ts: seq<CleanupTarget>)
    ensures a.all ==> ts == RuntimeDirs(root) + BuildArtifacts(root) + ModelArtifacts(root)
    ensures !(a.all || a.runtime || a.build || a.models) ==> ts == []
    ensures forall t :: t in ts ==> t in RuntimeDirs(root) || t in BuildArtifacts(root) || t in ModelArtifacts(root)
  {
    (if a.all || a.runtime then RuntimeDirs(root) else [])
    + (if a.all || a.build then BuildArtifacts(root) else [])
    + (if a.all || a.models then ModelArtifacts(root) else [])
  }

  // ---------------------------------------------------------------------
  // De-duplication
  // ---------------------------------------------------------------------

  /** The resolved keys of some targets. */
  function Keys(ts: seq<CleanupTarget>, key: Path -> Path): set<Path>
  {
    set i | 0 <= i < |ts| :: key(ts[i].path)
  }

  /** The reference meaning of the de-duplication: a target is kept iff no earlier target has its key. */
  function FirstOccurrences(ts: seq<CleanupTarget>, key: Path -> Path): (u: seq<CleanupTarget>)
    ensures |u| <= |ts|
  {
    if |ts| == 0 then []
    else
      var init := ts[..|ts| - 1];
      var u0 := FirstOccurrences(init, key);
      if key(ts[|ts| - 1].path) in Keys(init, key) then u0 else u0 + [ts[|ts| - 1]]
  }

  /** The positions of ts that FirstOccurrences keeps. */
  function KeptPositions(ts: seq<CleanupTarget>, key: Path -> Path): seq<nat>
  {
    if |ts| == 0 then []
    else
      var init := ts[..|ts| - 1];
      var p0 := KeptPositions(init, key);
      if key(ts[|ts| - 1].path) in Keys(init, key) then p0 else p0 + [|ts| - 1]
  }

  predicate DistinctKeys(u: seq<CleanupTarget>, key: Path -> Path)
  {
    forall i, j :: 0 <= i < j < |u| ==> key(u[i].path) != key(u[j].path)
  }

  lemma KeysSnoc(ts: seq<CleanupTarget>, t: CleanupTarget, key: Path -> Path)
    ensures Keys(ts + [t], key) == Keys(ts, key) + {key(t.path)}
  {
    var s := ts + [t];
    forall k | k in Keys(s, key) ensures k in Keys(ts, key) + {key(t.path)} {
      var i :| 0 <= i < |s| && key(s[i].path) == k;
      if i < |ts| {
        assert s[i] == ts[i];
      }
    }
    forall k | k in Keys(ts, key) ensures k in Keys(s, key) {
      var i :| 0 <= i < |ts| && key(ts[i].path) == k;
      assert s[i] == ts[i];
    }
    assert key(s[|ts|].path) in Keys(s, key);
  }

  /**
    The result of `collect_targets` holds no two targets with one key, and
    every key of the input is still represented.
  */
  lemma {:induction false} FirstOccurrencesKeys(ts: seq<CleanupTarget>, key: Path -> Path)
    ensures DistinctKeys(FirstOccurrences(ts, key), key)
    ensures Keys(FirstOccurrences(ts, key), key) == Keys(ts, key)
  {
    if |ts| > 0 {
      var init := ts[..|ts| - 1];
      var last := ts[|ts| - 1];
      assert ts == init + [last];
      FirstOccurrencesKeys(init, key);
      KeysSnoc(init, last, key);
      var u0 := FirstOccurrences(init, key);
      if key(last.path) !in Keys(init, key) {
        KeysSnoc(u0, last, key);
        var u := u0 + [last];
        forall i, j | 0 <= i < j < |u| ensures key(u[i].path) != key(u[j].path) {
          if j == |u0| {
            assert key(u0[i].path) in Keys(u0, key);
          }
        }
      }
    }
  }

  /**
    u is ts read at the strictly increasing positions ps, a position in ps
    has a key no earlier target has, and a position outside ps has a key
    some earlier target has.
  */
  predicate KeptAt(ts: seq<CleanupTarget>, u: seq<CleanupTarget>, ps: seq<nat>, key: Path -> Path)
  {
    && |ps| == |u|
    && (forall i :: 0 <= i < |ps| ==> ps[i] < |ts| && u[i] == ts[ps[i]] && key(ts[ps[i]].path) !in Keys(ts[..ps[i]], key))
    && (forall i, j :: 0 <= i < j < |ps| ==> ps[i] < ps[j])
    && (forall p :: 0 <= p < |ts| && p !in ps ==> key(ts[p].path) in Keys(ts[..p], key))
  }

  /** A last target whose key was seen is dropped. */
  lemma KeptAtSeen(ts: seq<CleanupTarget>, u: seq<CleanupTarget>, ps: seq<nat>, key: Path -> Path)
    requires |ts| > 0 && KeptAt(ts[..|ts| - 1], u, ps, key)
    requires key(ts[|ts| - 1].path) in Keys(ts[..|ts| - 1], key)
    ensures KeptAt(ts, u, ps, key)
  {
    var n := |ts| - 1;
    var init := ts[..n];
    forall p | 0 <= p <= n ensures init[..p] == ts[..p] && (p < n ==> init[p] == ts[p]) {
    }
    assert init == ts[..n];
  }

  /** A last target with a new key is kept at position |ts| - 1. */
  lemma KeptAtNew(ts: seq<CleanupTarget>, u: seq<CleanupTarget>, ps: seq<nat>, key: Path -> Path)
    requires |ts| > 0 && KeptAt(ts[..|ts| - 1], u, ps, key)
    requires key(ts[|ts| - 1].path) !in Keys(ts[..|ts| - 1], key)
    ensures KeptAt(ts, u + [ts[|ts| - 1]], ps + [|ts| - 1], key)
  {
    var n := |ts| - 1;
    var init := ts[..n];
    var u1, p1 := u + [ts[n]], ps + [n];
    forall p | 0 <= p <= n ensures init[..p] == ts[..p] && (p < n ==> init[p] == ts[p]) {
    }
    forall i | 0 <= i < |p1|
      ensures p1[i] < |ts| && u1[i] == ts[p1[i]] && key(ts[p1[i]].path) !in Keys(ts[..p1[i]], key)
    {
      if i < |ps| {
        assert p1[i] == ps[i] && u1[i] == u[i];
      }
    }
    forall p | 0 <= p < |ts| && p !in p1 ensures key(ts[p].path) in Keys(ts[..p], key) {
      assert p < n && p !in ps;
    }
  }

  /**
    FirstOccurrences keeps exactly the first target of each key, in their
    original order, at the positions KeptPositions names.
  */
  lemma {:induction false} FirstOccurrencesOrder(ts: seq<CleanupTarget>, key: Path -> Path)
    ensures KeptAt(ts, FirstOccurrences(ts, key), KeptPositions(ts, key), key)
  {
    if |ts| > 0 {
      var init := ts[..|ts| - 1];
      FirstOccurrencesOrder(init, key);
      if key(ts[|ts| - 1].path) in Keys(init, key) {
        KeptAtSeen(ts, FirstOccurrences(init, key), KeptPositions(init, key), key);
      } else {
        KeptAtNew(ts, FirstOccurrences(init, key), KeptPositions(init, key), key);
      }
    }
  }

  /** De-duplicating targets whose keys are already distinct changes nothing. */
  lemma {:induction false} FirstOccurrencesOfDistinct(u: seq<CleanupTarget>, key: Path -> Path)
    requires DistinctKeys(u, key)
    ensures FirstOccurrences(u, key) == u
  {
    if |u| > 0 {
      var init := u[..|u| - 1];
      assert DistinctKeys(init, key);
      FirstOccurrencesOfDistinct(init, key);
      assert key(u[|u| - 1].path) !in Keys(init, key) by {
        forall i | 0 <= i < |init| ensures key(init[i].path) != key(u[|u| - 1].path) {
          assert init[i] == u[i];
        }
      }
      assert init + [u[|u| - 1]] == u;
    }
  }

  /** De-duplication is idempotent. */
  lemma FirstOccurrencesIdempotent(ts: seq<CleanupTarget>, key: Path -> Path)
    ensures FirstOccurrences(FirstOccurrences(ts, key), key) == FirstOccurrences(ts, key)
  {
    FirstOccurrencesKeys(ts, key);
    FirstOccurrencesOfDistinct(FirstOccurrences(ts, key), key);
  }

  /**
    `collect_targets(args)`: the selected groups in order, then one pass that
    keeps a target when its resolved key has not been seen.
  */
  method CollectTargets(a: Args, root: Path, key: Path -> Path) returns (unique: seq<CleanupTarget>)
    ensures unique == FirstOccurrences(Selected(a, root), key)
  {
    var targets: seq<CleanupTarget> := [];
    if a.all || a.runtime {
      targets := targets + RuntimeDirs(root);
    }
    if a.all || a.build {
      targets := targets + BuildArtifacts(root);
    }
    if a.all || a.models {
      targets := targets + ModelArtifacts(root);
    }
    assert targets == Selected(a, root);
    unique := Deduplicate(targets, key);
  }

  /** The de-duplication pass of `collect_targets`, with its `seen` set of resolved keys. */
  method Deduplicate(targets: seq<CleanupTarget>, key: Path -> Path) returns (unique: seq<CleanupTarget>)
    ensures unique == FirstOccurrences(targets, key)
  {
    var seen: set<Path> := {};
    unique := [];
    for i := 0 to |targets|
      invariant unique == FirstOccurrences(targets[..i], key)
      invariant seen == Keys(targets[..i], key)
    {
      var k := key(targets[i].path);
      assert targets[..i + 1][..i] == targets[..i];
      KeysSnoc(targets[..i], targets[i], key);
      assert targets[..i + 1] == targets[..i] + [targets[i]];
      if k !in seen {
        unique := unique + [targets[i]];
        seen := seen + {k};
      }
    }
    assert targets[..|targets|] == targets;
  }

  /** Every input target has its key among the de-duplicated targets. */
  lemma FirstOccurrencesCovers(ts: seq<CleanupTarget>, key: Path -> Path)
    ensures forall t :: t in ts ==> key(t.path) in Keys(FirstOccurrences(ts, key), key)
  {
    FirstOccurrencesKeys(ts, key);
    forall t | t in ts ensures key(t.path) in Keys(ts, key) {
      var i :| 0 <= i < |ts| && ts[i] == t;
    }
  }

  /** Every target of a group the flags select has its key among the collected targets. */
  lemma SelectedGroupsCovered(a: Args, root: Path, key: Path -> Path)
    ensures var keys := Keys(FirstOccurrences(Selected(a, root), key), key);
      && ((a.all || a.runtime) ==> forall t :: t in RuntimeDirs(root) ==> key(t.path) in keys)
      && ((a.all || a.build) ==> forall t :: t in BuildArtifacts(root) ==> key(t.path) in keys)
      && ((a.all || a.models) ==> forall t :: t in ModelArtifacts(root) ==> key(t.path) in keys)
  {
    FirstOccurrencesCovers(Selected(a, root), key);
  }

  /** With distinct resolutions, `--all` collects all ten targets in their listed order. */
  lemma AllCollectsEverything(root: Path)
    ensures var a := Args(false, false, false, true, false, false);
      FirstOccurrences(Selected(a, root), p => p) == RuntimeDirs(root) + BuildArtifacts(root) + ModelArtifacts(root)
  {
    var a := Args(false, false, false, true, false, false);
    var s := Selected(a, root);
    assert s == RuntimeDirs(root) + BuildArtifacts(root) + ModelArtifacts(root);
    assert |s| == 10;
    forall i, j | 0 <= i < j < |s| ensures s[i].path != s[j].path {
      assert s[i].path[..|root|] == root && s[j].path[..|root|] == root;
      if j < 8 {
        assert |s[i].path| == |root| + 1 == |s[j].path|;
        assert s[i].path[|root|] != s[j].path[|root|];
      } else if j == 8 {
        assert |s[i].path| == |root| + 1 == |s[j].path|;
        assert s[i].path[|root|] != s[j].path[|root|];
      } else if i < 9 {
        assert |s[i].path| == |root| + 1 && |s[j].path| == |root| + 3;
      }
    }
    FirstOccurrencesOfDistinct(s, p => p);
  }

  // ---------------------------------------------------------------------
  // format_bytes
  // ---------------------------------------------------------------------

  const Units: seq<string> := ["B", "KB", "MB", "GB", "TB"]

  /** The running value after i divisions by 1024 (Python's `/=` is true division). */
  function Scaled(num: real, i: nat): real
  {
    if i == 0 then num else Scaled(num, i - 1) / 1024.0
  }

  /** The loop of `format_bytes` stops at unit i when the value is below 1024 or the unit is TB. */
  predicate Stops(num: real, i: nat)
  {
    Scaled(num, i) < 1024.0 || i == 4
  }

  /** The first unit index from i on at which the loop stops. */
  function UnitFrom(num: real, i: nat): (u: nat)
    requires i <= 4
    ensures i <= u <= 4 && Stops(num, u)
    ensures forall j :: i <= j < u ==> !Stops(num, j)
    decreases 4 - i
  {
    if Stops(num, i) then i else UnitFrom(num, i + 1)
  }

  /**
    `format_bytes(num)` as a value and a unit (the one-decimal rendering is
    not modelled): the value is num scaled to the first unit at which it is
    below 1024, or to TB.
  */
  method FormatBytes(num: int) returns (value: real, unit: string)
    ensures unit == Units[UnitFrom(num as real, 0)]
    ensures value == Scaled(num as real, UnitFrom(num as real, 0))
  {
    var x := num as real;
    var i := 0;
    value := x;
    while !(value < 1024.0 || i == 4)
      invariant 0 <= i <= 4 && value == Scaled(x, i)
      invariant forall j :: 0 <= j < i ==> !Stops(x, j)
      decreases 4 - i
    {
      value := value / 1024.0;
      i := i + 1;
    }
    UnitFromFirst(x, i);
    unit := Units[i];
  }

  /** The stopping unit is the first one. */
  lemma UnitFromFirst(num: real, i: nat)
    requires i <= 4 && Stops(num, i) && forall j :: 0 <= j < i ==> !Stops(num, j)
    ensures UnitFrom(num, 0) == i
  {
  }

  /** The shown value is below 1024 unless the unit is TB; from KB on it is at least 1. */
  lemma FormatBytesBounds(num: int)
    ensures var u := UnitFrom(num as real, 0);
      && (u < 4 ==> Scaled(num as real, u) < 1024.0)
      && (u > 0 ==> Scaled(num as real, u) >= 1.0)
      && (num < 1024 ==> u == 0)
  {
    var u := UnitFrom(num as real, 0);
    if u > 0 {
      assert !Stops(num as real, u - 1);
    }
  }

  /** A concrete case: 1536 bytes is 1.5 KB. */
  lemma FormatBytesExample()
    ensures UnitFrom(1536 as real, 0) == 1 && Scaled(1536 as real, 1) == 1.5
  {
    assert !Stops(1536 as real, 0);
    assert Stops(1536 as real, 1);
  }

  // ---------------------------------------------------------------------
  // confirm
  // ---------------------------------------------------------------------

  /** The characters Python's `str.strip()` removes (`str.isspace`). */
  predicate IsSpace(c: char)
  {
    c == ' ' || ('\t' <= c <= '\r') || ('\U{1C}' <= c <= '\U{1F}') || c == '\U{85}' || c == '\U{A0}'
    || c == '\U{1680}' || ('\U{2000}' <= c <= '\U{200A}') || c == '\U{2028}' || c == '\U{2029}'
    || c == '\U{202F}' || c == '\U{205F}' || c == '\U{3000}'
  }

  predicate AllSpace(s: string) { forall i :: 0 <= i < |s| ==> IsSpace(s[i]) }

  lemma AllSpaceCons(c: char, t: string)
    requires IsSpace(c) && AllSpace(t)
    ensures AllSpace([c] + t)
  {
    var s := [c] + t;
    forall i | 0 <= i < |s| ensures IsSpace(s[i]) {
      if i > 0 { assert s[i] == t[i - 1]; }
    }
  }

  lemma AllSpaceSnoc(t: string, c: char)
    requires AllSpace(t) && IsSpace(c)
    ensures AllSpace(t + [c])
  {
    var s := t + [c];
    forall i | 0 <= i < |s| ensures IsSpace(s[i]) {
      if i < |t| { assert s[i] == t[i]; }
    }
  }

  /** Removes leading whitespace. */
  function StripLeft(s: string): (r: string)
    ensures |r| <= |s| && r == s[|s| - |r|..]
    ensures r == [] || !IsSpace(r[0])
    ensures AllSpace(s[..|s| - |r|])
  {
    if s == [] || !IsSpace(s[0]) then s
    else
      var r := StripLeft(s[1..]);
      assert s[..|s| - |r|] == [s[0]] + s[1..][..|s| - 1 - |r|];
      AllSpaceCons(s[0], s[1..][..|s| - 1 - |r|]);
      r
  }

  /** Removes trailing whitespace. */
  function StripRight(s: string): (r: string)
    ensures |r| <= |s| && r == s[..|r|]
    ensures r == [] || !IsSpace(r[|r| - 1])
    ensures AllSpace(s[|r|..])
  {
    if s == [] || !IsSpace(s[|s| - 1]) then s
    else
      var r := StripRight(s[..|s| - 1]);
      assert s[|r|..] == s[..|s| - 1][|r|..] + [s[|s| - 1]];
      AllSpaceSnoc(s[..|s| - 1][|r|..], s[|s| - 1]);
      r
  }

  /** `str.strip()`. */
  function Strip(s: string): (r: string)
    ensures |r| <= |s|
    ensures r == [] || (!IsSpace(r[0]) && !IsSpace(r[|r| - 1]))
  {
    StripRight(StripLeft(s))
  }

  /** `str.lower()` on ASCII letters (other characters are kept). */
  function Lower(s: string): (r: string)
    ensures |r| == |s|
    ensures forall i :: 0 <= i < |s| ==> r[i] == if 'A' <= s[i] <= 'Z' then (s[i] as int + 32) as char else s[i]
  {
    seq(|s|, i requires 0 <= i < |s| => if 'A' <= s[i] <= 'Z' then (s[i] as int + 32) as char else s[i])
  }

  /** `confirm(prompt)`: the reply is None at end of input. */
  function Confirm(reply: Option<string>): (yes: bool)
    ensures reply.None? ==> !yes
    ensures reply.Some? && Strip(reply.value) == [] ==> yes
  {
    match reply
    case None => false
    case Some(s) => Lower(Strip(s)) in {"y", "yes", ""}
  }

  /** Leading whitespace before a part that does not start with whitespace is stripped away. */
  lemma {:induction false} StripLeftSpaces(pre: string, rest: string)
    requires AllSpace(pre) && (rest == [] || !IsSpace(rest[0]))
    ensures StripLeft(pre + rest) == rest
  {
    if pre != [] {
      assert (pre + rest)[1..] == pre[1..] + rest;
      StripLeftSpaces(pre[1..], rest);
    }
  }

  /** Trailing whitespace after a part that does not end with whitespace is stripped away. */
  lemma {:induction false} StripRightSpaces(rest: string, post: string)
    requires AllSpace(post) && (rest == [] || !IsSpace(rest[|rest| - 1]))
    ensures StripRight(rest + post) == rest
  {
    if post != [] {
      var s := rest + post;
      assert s[..|s| - 1] == rest + post[..|post| - 1];
      StripRightSpaces(rest, post[..|post| - 1]);
    }
  }

  /** Stripping a reply padded with whitespace gives its core back. */
  lemma StripPadded(pre: string, core: string, post: string)
    requires AllSpace(pre) && AllSpace(post)
    requires core == [] || (!IsSpace(core[0]) && !IsSpace(core[|core| - 1]))
    ensures Strip(pre + core + post) == core
  {
    if core == [] {
      assert pre + core + post == (pre + post) + [];
      StripLeftSpaces(pre + post, []);
    } else {
      assert pre + core + post == pre + (core + post);
      StripLeftSpaces(pre, core + post);
      StripRightSpaces(core, post);
    }
  }

  /** A reply is accepted exactly by its stripped, ASCII-lower-cased content: "Yes", "  y\n" and "" all confirm. */
  lemma ConfirmPadded(pre: string, core: string, post: string)
    requires AllSpace(pre) && AllSpace(post)
    requires core == [] || (!IsSpace(core[0]) && !IsSpace(core[|core| - 1]))
    ensures Confirm(Some(pre + core + post)) <==> Lower(core) in {"y", "yes", ""}
  {
    StripPadded(pre, core, post);
  }

  /** End of input declines, and so does a plain "no". */
  lemma ConfirmDeclines()
    ensures !Confirm(None)
    ensures !Confirm(Some("no"))
  {
    StripPadded("", "no", "");
    assert "" + "no" + "" == "no";
    var low := Lower("no");
    assert low[0] == 'n' && |low| == 2;
    assert low !in {"y", "yes", ""};
  }

  // ---------------------------------------------------------------------
  // The workspace: remove_target and main
  // ---------------------------------------------------------------------

  /** What a path names on disk. */
  datatype Entry = File | Directory

  /** An exception that `remove_target` lets escape: `unlink` on a directory. */
  datatype RemoveError = IsADirectory(path: Path)

  predicate IsPrefix(p: Path, q: Path)
  {
    |p| <= |q| && q[..|p|] == p
  }

  /** The disk without the tree rooted at p. */
  function WithoutTree(entries: map<Path, Entry>, p: Path): (r: map<Path, Entry>)
    ensures forall q :: q in r <==> q in entries && !IsPrefix(p, q)
    ensures forall q :: q in r ==> r[q] == entries[q]
  {
    map q | q in entries && !IsPrefix(p, q) :: entries[q]
  }

  /**
    The effect of `remove_target(target, dry_run)` on the disk: nothing when
    the target is absent or in a dry run; `rmtree` (errors ignored) removes a
    directory with everything below it and leaves a file alone; `unlink`
    removes a file and raises on a directory.
  */
  function Removal(entries: map<Path, Entry>, t: CleanupTarget, dryRun: bool): (r: Result<map<Path, Entry>, RemoveError>)
    ensures r.Failure? <==> !dryRun && t.path in entries && !t.isDir && entries[t.path] == Directory
    ensures r.Success? ==> forall p :: p in r.value ==> p in entries && r.value[p] == entries[p]
    ensures r.Success? && !dryRun && t.path in entries && (entries[t.path] == Directory <==> t.isDir) ==> t.path !in r.value
    ensures r.Success? && (dryRun || t.path !in entries) ==> r.value == entries
    ensures r.Success? ==> forall p :: p in entries && !IsPrefix(t.path, p) ==> p in r.value
    ensures r.Success? && !t.isDir ==> forall p :: p in entries && p != t.path ==> p in r.value
    ensures t.isDir && t.path in entries && entries[t.path] == File ==> r == Success(entries)
  {
    if t.path !in entries || dryRun then Success(entries)
    else if t.isDir then
      (if entries[t.path] == Directory then Success(WithoutTree(entries, t.path)) else Success(entries))
    else if entries[t.path].File? then Success(entries - {t.path})
    else Failure(IsADirectory(t.path))
  }

  /** The disk the deletion loop leaves, and the exception that ended it, if any. */
  datatype Removed = Removed(disk: map<Path, Entry>, error: Option<RemoveError>)

  /**
    Removing the targets one after another, stopping at the first exception:
    the targets before it stay removed and the ones after it are untouched.
  */
  function RemovalAll(entries: map<Path, Entry>, ts: seq<CleanupTarget>): (r: Removed)
    ensures forall p :: p in r.disk ==> p in entries && r.disk[p] == entries[p]
    decreases |ts|
  {
    if ts == [] then Removed(entries, None)
    else match Removal(entries, ts[0], false)
      case Failure(e) => Removed(entries, Some(e))
      case Success(next) => RemovalAll(next, ts[1..])
  }

  /** No target's tree contains p. */
  predicate Untargeted(ts: seq<CleanupTarget>, p: Path)
  {
    forall i :: 0 <= i < |ts| ==> !IsPrefix(ts[i].path, p)
  }

  /** A path under none of the targets survives the loop, whether or not it raises. */
  lemma {:induction false} RemovalAllKeeps(entries: map<Path, Entry>, ts: seq<CleanupTarget>, p: Path)
    requires p in entries && Untargeted(ts, p)
    ensures p in RemovalAll(entries, ts).disk && RemovalAll(entries, ts).disk[p] == entries[p]
    decreases |ts|
  {
    if ts != [] && Removal(entries, ts[0], false).Success? {
      assert !IsPrefix(ts[0].path, p);
      assert Untargeted(ts[1..], p) by {
        forall i | 0 <= i < |ts| - 1 ensures !IsPrefix(ts[1..][i].path, p) {
          assert ts[1..][i] == ts[i + 1];
        }
      }
      RemovalAllKeeps(Removal(entries, ts[0], false).value, ts[1..], p);
    }
  }

  /** The exit of `main`: a return code, or an exception that escaped. */
  datatype Exit = Code(code: int) | Raised(error: RemoveError)

  /** A target is of the kind its flag says. */
  predicate KindMatches(entries: map<Path, Entry>, t: CleanupTarget)
  {
    t.path in entries ==> (entries[t.path] == Directory <==> t.isDir)
  }

  class Workspace {
    var entries: map<Path, Entry>

    constructor(entries: map<Path, Entry>)
      ensures this.entries == entries
    {
      this.entries := entries;
    }

    /** `target.exists`. */
    predicate Exists(t: CleanupTarget)
      reads this
    {
      t.path in entries
    }

    /** `remove_target(target, dry_run)`. */
    method RemoveTarget(t: CleanupTarget, dryRun: bool) returns (r: Result<(), RemoveError>)
      modifies this
      ensures Removal(old(entries), t, dryRun).Success? ==>
        r.Success? && entries == Removal(old(entries), t, dryRun).value
      ensures Removal(old(entries), t, dryRun).Failure? ==>
        r == Failure(Removal(old(entries), t, dryRun).error) && entries == old(entries)
      ensures (!old(Exists(t)) || dryRun) ==> entries == old(entries)
    {
      if t.path !in entries {
        return Success(());
      }
      if dryRun {
        return Success(());
      }
      if t.isDir {
        if entries[t.path] == Directory {
          entries := WithoutTree(entries, t.path);
        }
      } else {
        if entries[t.path] == Directory {
          return Failure(IsADirectory(t.path));
        }
        entries := entries - {t.path};
      }
      r := Success(());
    }

    /**
      `main()` after argument parsing: collect, keep the existing targets,
      stop with 0 when there are none or on a dry run, stop with 1 when the
      reply declines (it is only read without `--yes`), otherwise remove them
      all in order and return 0.
    */
    method Run(parsed: Args, root: Path, key: Path -> Path, reply: Option<string>) returns (exit: Exit)
      modifies this
      ensures var existing := ExistingIn(FirstOccurrences(Selected(WithDefault(parsed), root), key), old(entries));
        && (existing == [] ==> exit == Code(0) && entries == old(entries))
        && (existing != [] && parsed.dryRun ==> exit == Code(0) && entries == old(entries))
        && (existing != [] && !parsed.dryRun && !parsed.yes && !Confirm(reply) ==>
              exit == Code(1) && entries == old(entries))
        && (existing != [] && !parsed.dryRun && (parsed.yes || Confirm(reply)) ==>
              var out := RemovalAll(old(entries), existing);
              && entries == out.disk
              && exit == if out.error.None? then Code(0) else Raised(out.error.value))
    {
      var args := WithDefault(parsed);
      var targets := CollectTargets(args, root, key);
      var existing := ExistingIn(targets, entries);
      if existing == [] {
        return Code(0);
      }
      if args.dryRun {
        return Code(0);
      }
      if !args.yes && !Confirm(reply) {
        return Code(1);
      }
      var r := RemoveAll(existing);
      exit := if r.Success? then Code(0) else Raised(r.error);
      assert r.Success? <==> RemovalAll(old(entries), existing).error.None?;
    }

    /** The deletion loop of `main`: each target in turn, an exception ending the loop. */
    method RemoveAll(ts: seq<CleanupTarget>) returns (r: Result<(), RemoveError>)
      modifies this
      ensures entries == RemovalAll(old(entries), ts).disk
      ensures r.Success? <==> RemovalAll(old(entries), ts).error.None?
      ensures r.Failure? ==> r.error == RemovalAll(old(entries), ts).error.value
    {
      for i := 0 to |ts|
        invariant RemovalAll(old(entries), ts) == RemovalAll(entries, ts[i..])
      {
        assert ts[i..][1..] == ts[i + 1..];
        var step := RemoveTarget(ts[i], false);
        if step.Failure? {
          assert RemovalAll(entries, ts[i..]) == Removed(entries, Some(step.error));
          return Failure(step.error);
        }
      }
      r := Success(());
    }
  }

  /** `[t for t in targets if t.exists]`. */
  function ExistingIn(ts: seq<CleanupTarget>, entries: map<Path, Entry>): (r: seq<CleanupTarget>)
    ensures forall t :: t in r <==> t in ts && t.path in entries
    ensures |r| <= |ts|
  {
    if ts == [] then []
    else (if ts[0].path in entries then [ts[0]] else []) + ExistingIn(ts[1..], entries)
  }

  /**
    When every existing target is of the kind its flag says, removing them
    all raises nothing and leaves none of them on disk.
  */
  lemma {:induction false} RemovalAllClears(entries: map<Path, Entry>, ts: seq<CleanupTarget>)
    requires forall t :: t in ts ==> KindMatches(entries, t)
    ensures RemovalAll(entries, ts).error.None?
    ensures forall t :: t in ts ==> t.path !in RemovalAll(entries, ts).disk
    decreases |ts|
  {
    if ts != [] {
      assert KindMatches(entries, ts[0]);
      assert IsPrefix(ts[0].path, ts[0].path);
      var next := Removal(entries, ts[0], false).value;
      forall t | t in ts[1..] ensures KindMatches(next, t) {
        assert t in ts;
      }
      RemovalAllClears(next, ts[1..]);
      RemovalAllMonotone(next, ts[1..], ts[0].path);
      forall t | t in ts ensures t.path !in RemovalAll(entries, ts).disk {
        if t !in ts[1..] {
          assert t == ts[0];
        }
      }
    }
  }

  /** Removal never brings a path back. */
  lemma {:induction false} RemovalAllMonotone(entries: map<Path, Entry>, ts: seq<CleanupTarget>, p: Path)
    requires p !in entries
    ensures p !in RemovalAll(entries, ts).disk
    decreases |ts|
  {
    if ts != [] && Removal(entries, ts[0], false).Success? {
      RemovalAllMonotone(Removal(entries, ts[0], false).value, ts[1..], p);
    }
  }

  /** The loop ran the first k targets without an error, and target k raised on the disk they left. */
  predicate StopsAt(entries: map<Path, Entry>, ts: seq<CleanupTarget>, k: int)
  {
    && 0 <= k < |ts|
    && RemovalAll(entries, ts[..k]) == Removed(RemovalAll(entries, ts).disk, None)
    && RemovalAll(entries, ts).error.Some?
    && Removal(RemovalAll(entries, ts).disk, ts[k], false) == Failure(RemovalAll(entries, ts).error.value)
  }

  /**
    When the loop raises, it raised at some target k: the disk is the one
    the first k targets left without an error, and target k raises on it.
  */
  lemma {:induction false} RemovalAllStops(entries: map<Path, Entry>, ts: seq<CleanupTarget>)
    requires RemovalAll(entries, ts).error.Some?
    ensures exists k :: StopsAt(entries, ts, k)
    decreases |ts|
  {
    var out := RemovalAll(entries, ts);
    assert ts[..0] == [];
    match Removal(entries, ts[0], false)
    case Failure(e) =>
      assert StopsAt(entries, ts, 0);
    case Success(next) =>
      RemovalAllStops(next, ts[1..]);
      var k :| StopsAt(next, ts[1..], k);
      var pre := ts[..k + 1];
      assert pre[0] == ts[0] && pre[1..] == ts[1..][..k];
      assert RemovalAll(entries, pre) == RemovalAll(next, ts[1..][..k]);
      assert StopsAt(entries, ts, k + 1);
  }
}
