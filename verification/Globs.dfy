/**
 Exclusion patterns of `rmote/tools/rsync.py`: the recursive `match` of `excluded`, and what a pattern
 means. Matching inside one component, `fnmatchcase`, is a parameter.
 */
module Globs {
  import Trees

  /** `fnmatchcase(name, pattern)`. */
  type NameMatch = (string, string) -> bool

  const STARS: string := "**"

  // ---------------------------------------------------------------- match

  /** `match(i, j)`. */
  function Matches(fm: NameMatch, parts: seq<string>, components: seq<string>, i: nat, j: nat): (r: bool)
    requires i <= |parts| && j <= |components|
    decreases |parts| - i + |components| - j
  {
    if j == |components| then i == |parts|
    else if components[j] == STARS then
      Matches(fm, parts, components, i, j + 1) || (i < |parts| && Matches(fm, parts, components, i + 1, j))
    else i < |parts| && fm(parts[i], components[j]) && Matches(fm, parts, components, i + 1, j + 1)
  }

  function Flatten(groups: seq<seq<string>>): (r: seq<string>) {
    if groups == [] then [] else groups[0] + Flatten(groups[1..])
  }

  predicate Fits(fm: NameMatch, group: seq<string>, component: string) {
    component == STARS || (|group| == 1 && fm(group[0], component))
  }

  /** The path is one group of names for each component: any for `**`, one matching name for the others. */
  predicate Groups(fm: NameMatch, parts: seq<string>, components: seq<string>, groups: seq<seq<string>>) {
    |groups| == |components| && Flatten(groups) == parts && forall k | 0 <= k < |components| :: Fits(fm, groups[k], components[k])
  }

  /** What `match` finds is such a division of the path. */
  lemma {:induction false} Divided(fm: NameMatch, parts: seq<string>, components: seq<string>, i: nat, j: nat) returns (groups: seq<seq<string>>)
    requires i <= |parts| && j <= |components| && Matches(fm, parts, components, i, j)
    ensures Groups(fm, parts[i..], components[j..], groups)
    decreases |parts| - i + |components| - j
  {
    if j == |components| {
      groups := [];
    } else if components[j] == STARS {
      if Matches(fm, parts, components, i, j + 1) {
        var rest := Divided(fm, parts, components, i, j + 1);
        groups := Prefixed(fm, [], parts[i..], components[j], components[j + 1..], rest);
        assert [] + parts[i..] == parts[i..];
      } else {
        var rest := Divided(fm, parts, components, i + 1, j);
        var longer := [parts[i]] + rest[0];
        assert [parts[i]] + (rest[0] + Flatten(rest[1..])) == longer + Flatten(rest[1..]);
        groups := Prefixed(fm, longer, Flatten(rest[1..]), components[j], components[j + 1..], rest[1..]);
        assert components[j..][1..] == components[j + 1..];
        assert parts[i..] == [parts[i]] + parts[i + 1..];
      }
      assert components[j..] == [components[j]] + components[j + 1..];
    } else {
      var rest := Divided(fm, parts, components, i + 1, j + 1);
      groups := Prefixed(fm, [parts[i]], parts[i + 1..], components[j], components[j + 1..], rest);
      assert parts[i..] == [parts[i]] + parts[i + 1..];
      assert components[j..] == [components[j]] + components[j + 1..];
    }
  }

  lemma Prefixed(fm: NameMatch, group: seq<string>, parts: seq<string>, c: string, components: seq<string>, rest: seq<seq<string>>)
    returns (groups: seq<seq<string>>)
    requires Fits(fm, group, c) && |rest| == |components| && Flatten(rest) == parts
    requires forall k | 0 <= k < |components| :: Fits(fm, rest[k], components[k])
    ensures Groups(fm, group + parts, [c] + components, groups)
  {
    hide Fits;
    groups := [group] + rest;
    assert groups[1..] == rest;
  }

  /** And `match` finds one whenever there is one. */
  lemma {:induction false} Found(fm: NameMatch, parts: seq<string>, components: seq<string>, i: nat, j: nat, groups: seq<seq<string>>)
    requires i <= |parts| && j <= |components| && Groups(fm, parts[i..], components[j..], groups)
    ensures Matches(fm, parts, components, i, j)
    decreases |parts| - i + |components| - j
  {
    if j < |components| {
      var group, rest := groups[0], groups[1..];
      assert Fits(fm, group, components[j..][0]);
      assert parts[i..] == group + Flatten(rest);
      assert components[j..][1..] == components[j + 1..];
      assert forall k | 0 <= k < |rest| :: Fits(fm, rest[k], components[j + 1..][k]) by {
        forall k | 0 <= k < |rest| ensures Fits(fm, rest[k], components[j + 1..][k]) { assert Fits(fm, groups[k + 1], components[j..][k + 1]); }
      }
      if components[j] == STARS && group != [] {
        assert parts[i] == group[0];
        var shorter := [group[1..]] + rest;
        assert shorter[1..] == rest;
        assert parts[i + 1..] == group[1..] + Flatten(rest);
        Found(fm, parts, components, i + 1, j, shorter);
      } else {
        assert parts[i + |group|..] == Flatten(rest);
        Found(fm, parts, components, i + |group|, j + 1, rest);
      }
    }
  }

  /** A whole pattern matches a whole path exactly when the path can be divided among its components. */
  lemma MatchMeans(fm: NameMatch, parts: seq<string>, components: seq<string>)
    ensures Matches(fm, parts, components, 0, 0) <==> exists groups :: Groups(fm, parts, components, groups)
  {
    assert parts[0..] == parts && components[0..] == components;
    if Matches(fm, parts, components, 0, 0) {
      var groups := Divided(fm, parts, components, 0, 0);
      assert Groups(fm, parts, components, groups);
    }
    if groups :| Groups(fm, parts, components, groups) { Found(fm, parts, components, 0, 0, groups); }
  }

  lemma {:induction false} FlattenLast(groups: seq<seq<string>>, last: seq<string>)
    ensures Flatten(groups + [last]) == Flatten(groups) + last
    decreases |groups|
  {
    if groups == [] {
      assert groups + [last] == [last] && [last][1..] == [];
    } else {
      assert (groups + [last])[1..] == groups[1..] + [last];
      FlattenLast(groups[1..], last);
    }
  }

  /** A trailing `**` matches the path in front of it and everything below. */
  lemma TrailingStars(fm: NameMatch, parts: seq<string>, components: seq<string>)
    ensures Matches(fm, parts, components + [STARS], 0, 0) <==> exists k: nat :: k <= |parts| && Matches(fm, parts[..k], components, 0, 0)
  {
    hide Matches, Fits;
    var all := components + [STARS];
    MatchMeans(fm, parts, all);
    if Matches(fm, parts, all, 0, 0) {
      var groups :| Groups(fm, parts, all, groups);
      var n := |components|;
      var front, last := groups[..n], groups[n];
      assert groups == front + [last];
      FlattenLast(front, last);
      var k := |Flatten(front)|;
      assert parts[..k] == Flatten(front);
      assert forall i | 0 <= i < n :: Fits(fm, front[i], components[i]) by {
        forall i | 0 <= i < n ensures Fits(fm, front[i], components[i]) { assert Fits(fm, groups[i], all[i]); }
      }
      MatchMeans(fm, parts[..k], components);
      assert Groups(fm, parts[..k], components, front);
    }
    if k: nat :| k <= |parts| && Matches(fm, parts[..k], components, 0, 0) {
      MatchMeans(fm, parts[..k], components);
      var front :| Groups(fm, parts[..k], components, front);
      var groups := front + [parts[k..]];
      FlattenLast(front, parts[k..]);
      StarsFit(fm, parts[k..]);
      assert forall i | 0 <= i < |all| :: Fits(fm, groups[i], all[i]);
      assert Groups(fm, parts, all, groups);
    }
  }

  lemma StarsFit(fm: NameMatch, group: seq<string>)
    ensures Fits(fm, group, STARS)
  {
  }

  // ---------------------------------------------------------------- strings

  /** `text.split("/")`. */
  function Split(s: string): (parts: seq<string>)
    ensures parts != []
  {
    if s == "" then [""]
    else
      var rest := Split(s[1..]);
      if s[0] == '/' then [""] + rest else [[s[0]] + rest[0]] + rest[1..]
  }

  function Join(parts: seq<string>): (s: string) {
    if parts == [] then "" else if |parts| == 1 then parts[0] else parts[0] + "/" + Join(parts[1..])
  }

  lemma {:induction false} SplitName(name: string, rest: string)
    requires '/' !in name
    ensures Split(name + "/" + rest) == [name] + Split(rest) && Split(name) == [name]
    decreases |name|
  {
    var s := name + "/" + rest;
    if name == "" {
      assert s == "/" + rest && s[1..] == rest;
    } else {
      SplitName(name[1..], rest);
      assert s[1..] == name[1..] + "/" + rest;
      assert [s[0]] + name[1..] == name;
      assert ([name[1..]] + Split(rest))[1..] == Split(rest);
      assert [name[1..]][1..] == [];
    }
  }

  /** A relative path, joined and split again, is its names. */
  lemma {:induction false} SplitJoin(parts: seq<string>)
    requires parts != [] && forall i | 0 <= i < |parts| :: '/' !in parts[i]
    ensures Split(Join(parts)) == parts
    decreases |parts|
  {
    if |parts| == 1 {
      SplitName(parts[0], "");
    } else {
      SplitJoin(parts[1..]);
      SplitName(parts[0], Join(parts[1..]));
    }
  }

  predicate EndsWithSlash(s: string) { s != "" && s[|s| - 1] == '/' }

  function RemoveSuffix(s: string): (r: string) { if EndsWithSlash(s) then s[..|s| - 1] else s }

  function RemovePrefix(s: string): (r: string) { if s != "" && s[0] == '/' then s[1..] else s }

  // ---------------------------------------------------------------- excluded

  /** What a pattern excludes: a name at any depth, or a path divided among its components. */
  ghost predicate Excludes(fm: NameMatch, pattern: string, parts: seq<string>, kind: Trees.Kind)
    requires parts != []
  {
    var text := RemoveSuffix(pattern);
    && (EndsWithSlash(pattern) ==> kind == Trees.DirectoryKind)
    && if '/' in text then exists groups :: Groups(fm, parts, Split(RemovePrefix(text)), groups)
       else fm(parts[|parts| - 1], text)
  }

  /** `excluded(relative, kind, patterns)`: any match excludes the path. */
  method Excluded(fm: NameMatch, relative: string, kind: Trees.Kind, patterns: seq<string>) returns (r: bool)
    ensures r <==> exists k | 0 <= k < |patterns| :: Excludes(fm, patterns[k], Split(relative), kind)
  {
    var parts := Split(relative);
    var k := 0;
    while k < |patterns|
      invariant k <= |patterns|
      invariant forall i | 0 <= i < k :: !Excludes(fm, patterns[i], parts, kind)
    {
      var pattern := patterns[k];
      if !EndsWithSlash(pattern) || kind == Trees.DirectoryKind {
        var text := RemoveSuffix(pattern);
        if '/' !in text {
          if fm(parts[|parts| - 1], text) { return true; }
        } else {
          var components := Split(RemovePrefix(text));
          MatchMeans(fm, parts, components);
          if Matches(fm, parts, components, 0, 0) { return true; }
        }
      }
      k := k + 1;
    }
    r := false;
  }
}
