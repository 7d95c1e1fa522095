/** Vault paths: the breadcrumb splitter and the joiner. */
module VaultPath {
  import opened Text

  const SLASH: char -> bool := c => c == '/'

  /** The pieces between the slashes; always at least one. */
  function Split(s: string): (segs: seq<string>)
    ensures segs != []
    decreases |s|
  {
    var n := Find(s, '/');
    if n == |s| then [s] else [s[..n]] + Split(s[n + 1..])
  }

  /** Each segment with a slash before it. */
  function PathOf(segs: seq<string>): string {
    if segs == [] then "" else PathOf(segs[..|segs| - 1]) + "/" + segs[|segs| - 1]
  }

  /** The breadcrumbs of a list of segments: the root, and each segment with the path up to it. */
  function Crumbs(segs: seq<string>): (crumbs: seq<(string, string)>)
    ensures |crumbs| == |segs| + 1
  {
    [("Vault", "/")] + seq(|segs|, i requires 0 <= i < |segs| => (segs[i], PathOf(segs[..i + 1])))
  }

  /** The segments of a path, after the slashes at its ends are gone. */
  function Segments(path: string): seq<string> {
    var trimmed := Strip(path, SLASH);
    if trimmed == "" then [] else Split(trimmed)
  }

  method SplitPathSegments(path: string) returns (out: seq<(string, string)>)
    ensures out == Crumbs(Segments(path))
  {
    var trimmed := TrimEnd(TrimStart(path, SLASH), SLASH);
    out := [("Vault", "/")];
    if trimmed == "" {
      return;
    }
    var acc := "";
    var segs := Split(trimmed);
    for i := 0 to |segs|
      invariant acc == PathOf(segs[..i])
      invariant out == Crumbs(segs[..i])
    {
      acc := acc + "/";
      acc := acc + segs[i];
      assert segs[..i + 1][..i] == segs[..i];
      out := out + [(segs[i], acc)];
      CrumbsSnoc(segs[..i], segs[i]);
      assert segs[..i] + [segs[i]] == segs[..i + 1];
    }
    assert segs[..|segs|] == segs;
  }

  function JoinVaultPath(currentPath: string, entryName: string): string {
    if currentPath == "/" then "/" + entryName else TrimEnd(currentPath, SLASH) + "/" + entryName
  }

  // ---------------------------------------------------------------- split and join are inverse

  lemma CrumbsSnoc(segs: seq<string>, seg: string)
    ensures Crumbs(segs + [seg]) == Crumbs(segs) + [(seg, PathOf(segs) + "/" + seg)]
  {
    var all := segs + [seg];
    assert all[..|segs|] == segs && all[..|segs| + 1] == all;
    forall i | 0 < i <= |segs|
      ensures Crumbs(all)[i] == Crumbs(segs)[i]
    {
      assert all[..i] == segs[..i];
    }
  }

  lemma {:induction false} PathOfCons(seg: string, rest: seq<string>)
    ensures PathOf([seg] + rest) == "/" + seg + PathOf(rest)
    decreases |rest|
  {
    var all := [seg] + rest;
    if rest == [] {
      assert all[..0] == [];
    } else {
      PathOfCons(seg, rest[..|rest| - 1]);
      assert all[..|all| - 1] == [seg] + rest[..|rest| - 1];
    }
  }

  predicate SlashFree(segs: seq<string>) {
    forall i :: 0 <= i < |segs| ==> '/' !in segs[i]
  }

  lemma {:induction false} PathOfSplit(s: string)
    ensures PathOf(Split(s)) == "/" + s
    decreases |s|
  {
    hide PathOf, Find;
    var n := Find(s, '/');
    if n == |s| {
      PathOfOne(s);
    } else {
      var head, tail := s[..n], s[n + 1..];
      PathOfSplit(tail);
      PathOfCons(head, Split(tail));
      assert s == head + "/" + tail;
      assert "/" + (head + "/" + tail) == "/" + head + ("/" + tail);
    }
  }

  lemma PathOfOne(seg: string)
    ensures PathOf([seg]) == "/" + seg
  {
    assert [seg][..0] == [];
  }

  lemma {:induction false} SplitIsSlashFree(s: string)
    ensures SlashFree(Split(s))
    decreases |s|
  {
    var n := Find(s, '/');
    if n < |s| {
      SplitIsSlashFree(s[n + 1..]);
    } else {
      assert s[..n] == s;
    }
  }

  lemma {:induction false} SplitPathOf(segs: seq<string>)
    requires segs != [] && SlashFree(segs)
    ensures |PathOf(segs)| > 0 && PathOf(segs)[0] == '/' && Split(PathOf(segs)[1..]) == segs
    decreases |segs|
  {
    var first, rest := segs[0], segs[1..];
    assert segs == [first] + rest;
    PathOfCons(first, rest);
    if rest == [] {
      assert PathOf(segs)[1..] == first;
      NoSlash(first);
    } else {
      SplitPathOf(rest);
      var tail := PathOf(rest)[1..];
      assert PathOf(segs)[1..] == first + ['/'] + tail;
      FindIs(first, '/', tail);
      assert (first + ['/'] + tail)[..|first|] == first && (first + ['/'] + tail)[|first| + 1..] == tail;
    }
  }

  lemma {:induction false} NoSlash(s: string)
    requires '/' !in s
    ensures Find(s, '/') == |s|
  {
    if s != "" {
      NoSlash(s[1..]);
    }
  }

  lemma SplitSnoc(s: string, name: string)
    requires '/' !in name
    ensures Split(s + "/" + name) == Split(s) + [name]
  {
    hide Split, Find;
    var segs := Split(s) + [name];
    PathOfSplit(s);
    SplitIsSlashFree(s);
    assert segs[..|segs| - 1] == Split(s);
    assert PathOf(segs) == ("/" + s) + "/" + name;
    SplitPathOf(segs);
    assert (("/" + s) + "/" + name)[1..] == s + "/" + name;
  }

  // ---------------------------------------------------------------- joining

  /** The root case of the joiner is no exception to its general case. */
  lemma JoinIsUniform(dir: string, name: string)
    ensures JoinVaultPath(dir, name) == TrimEnd(dir, SLASH) + "/" + name
  {
    assert "/"[..0] == "";
  }

  lemma StripJoined(dir: string, name: string)
    requires name != "" && '/' !in name
    ensures Strip(JoinVaultPath(dir, name), SLASH) ==
            if Strip(dir, SLASH) == "" then name else Strip(dir, SLASH) + "/" + name
  {
    hide TrimStart, TrimEnd;
    var d, tail := TrimEnd(dir, SLASH), "/" + name;
    JoinIsUniform(dir, name);
    assert d + "/" + name == d + tail;
    TrimStartConcat(d, tail, SLASH);
    StripAfterTrimEnd(dir, SLASH);
    TrimTail(name);
    TrimEndConcat(TrimStart(d, SLASH), tail, SLASH);
    TrimStartKeepsEnd(d);
    assert TrimStart(d, SLASH) + tail == TrimStart(d, SLASH) + "/" + name;
  }

  lemma TrimTail(name: string)
    requires name != "" && '/' !in name
    ensures TrimStart("/" + name, SLASH) == name
    ensures TrimEnd("/" + name, SLASH) == "/" + name && TrimEnd(name, SLASH) == name
  {
    assert ("/" + name)[1..] == name && name[0] in name && name[|name| - 1] in name;
  }

  /** A string that ends in no slash still ends in none once its leading slashes are gone. */
  lemma {:induction false} TrimStartKeepsEnd(s: string)
    requires s == "" || s[|s| - 1] != '/'
    ensures Strip(s, SLASH) == TrimStart(s, SLASH)
    ensures TrimStart(s, SLASH) == "" ==> s == ""
  {
    if s != "" && s[0] == '/' {
      TrimStartKeepsEnd(s[1..]);
    }
  }

  /** Splitting a joined path gives the split of the directory and one more segment. */
  lemma SplitJoin(dir: string, name: string)
    requires name != "" && '/' !in name
    ensures Segments(JoinVaultPath(dir, name)) == Segments(dir) + [name]
    ensures var crumbs := Crumbs(Segments(dir));
            Crumbs(Segments(JoinVaultPath(dir, name))) == crumbs + [(name, JoinVaultPath(crumbs[|crumbs| - 1].1, name))]
  {
    var core := Strip(dir, SLASH);
    StripJoined(dir, name);
    if core == "" {
      NoSlash(name);
    } else {
      SplitSnoc(core, name);
      assert core + "/" + name != "";
    }
    CrumbsSnoc(Segments(dir), name);
    LastCrumb(dir, name);
  }

  lemma LastCrumb(dir: string, name: string)
    ensures var crumbs := Crumbs(Segments(dir));
            JoinVaultPath(crumbs[|crumbs| - 1].1, name) == PathOf(Segments(dir)) + "/" + name
  {
    var core, segs := Strip(dir, SLASH), Segments(dir);
    if core != "" {
      assert segs[..|segs| - 1 + 1] == segs;
      PathOfSplit(core);
      StripEndsRight(dir);
    }
  }

  lemma StripEndsRight(dir: string)
    ensures var core := Strip(dir, SLASH);
            core != "" ==> core[|core| - 1] != '/' && TrimEnd("/" + core, SLASH) == "/" + core
  {
  }

  // ---------------------------------------------------------------- breadcrumbs

  /** The path of a breadcrumb leads back to that breadcrumb and those before it, if and only if its label
      is not empty. Labels are empty where the path has two slashes in a row. */
  lemma CrumbLeadsBack(path: string, i: nat)
    requires i <= |Segments(path)|
    ensures var crumbs := Crumbs(Segments(path));
            Crumbs(Segments(crumbs[i].1)) == crumbs[..i + 1] <==> crumbs[i].0 != ""
  {
    var segs := Segments(path);
    var crumbs := Crumbs(segs);
    CrumbsPrefix(segs, i);
    if i == 0 {
      RootHasNoSegments();
    } else {
      var front := segs[..i];
      SegmentsShape(path);
      assert front[0] == segs[0] && front[i - 1] == segs[i - 1];
      if segs[i - 1] != "" {
        PathLeadsBack(front);
      } else {
        PathShrinks(front);
        if Crumbs(Segments(PathOf(front))) == Crumbs(front) {
          CrumbsInjective(Segments(PathOf(front)), front);
        }
      }
    }
  }

  lemma CrumbsInjective(a: seq<string>, b: seq<string>)
    requires Crumbs(a) == Crumbs(b)
    ensures a == b
  {
    forall i | 0 <= i < |a|
      ensures |a| == |b| && a[i] == b[i]
    {
      assert Crumbs(a)[i + 1].0 == a[i] && Crumbs(b)[i + 1].0 == b[i];
    }
  }

  lemma RootHasNoSegments()
    ensures Segments("/") == []
  {
    assert "/"[1..] == "";
  }

  lemma CrumbsPrefix(segs: seq<string>, i: nat)
    requires i <= |segs|
    ensures Crumbs(segs)[..i + 1] == Crumbs(segs[..i])
  {
    forall k | 0 < k <= i
      ensures Crumbs(segs)[k] == Crumbs(segs[..i])[k]
    {
      assert segs[..i][..k] == segs[..k];
    }
  }

  /** The first segment of a path is never empty. */
  lemma SegmentsShape(path: string)
    ensures SlashFree(Segments(path))
    ensures Segments(path) != [] ==> Segments(path)[0] != ""
  {
    var trimmed := Strip(path, SLASH);
    if trimmed != "" {
      SplitIsSlashFree(trimmed);
      StripStartsRight(path);
    }
  }

  lemma StripStartsRight(path: string)
    ensures var core := Strip(path, SLASH); core != "" ==> core[0] != '/'
  {
    TrimEndIsPrefix(TrimStart(path, SLASH));
  }

  lemma {:induction false} TrimEndIsPrefix(s: string)
    ensures TrimEnd(s, SLASH) <= s
  {
    if s != "" && s[|s| - 1] == '/' {
      TrimEndIsPrefix(s[..|s| - 1]);
    }
  }

  lemma PathLeadsBack(segs: seq<string>)
    requires segs != [] && SlashFree(segs) && segs[0] != "" && segs[|segs| - 1] != ""
    ensures Segments(PathOf(segs)) == segs
  {
    hide Split, Strip, PathOf, SlashFree;
    SplitPathOf(segs);
    PathEnds(segs);
    StripPath(PathOf(segs));
  }

  lemma StripPath(path: string)
    requires |path| > 1 && path[0] == '/' && path[1] != '/' && path[|path| - 1] != '/'
    ensures Strip(path, SLASH) == path[1..]
  {
    assert path == ['/'] + path[1..];
    StripAfterDropped('/', path[1..], SLASH);
    StrippedIff(path[1..], SLASH);
  }

  lemma PathEnds(segs: seq<string>)
    requires segs != [] && SlashFree(segs) && segs[0] != "" && segs[|segs| - 1] != ""
    ensures var path := PathOf(segs); |path| > 1 && path[1] != '/' && path[|path| - 1] != '/'
  {
    var first, last := segs[0], segs[|segs| - 1];
    assert segs == [first] + segs[1..];
    PathOfCons(first, segs[1..]);
    var path := PathOf(segs);
    assert path[1] == first[0] && first[0] in first;
    assert path[|path| - 1] == last[|last| - 1] && last[|last| - 1] in last;
  }

  lemma PathShrinks(segs: seq<string>)
    requires segs != [] && SlashFree(segs) && segs[|segs| - 1] == ""
    ensures Segments(PathOf(segs)) != segs
  {
    var path := PathOf(segs);
    var core := Strip(path, SLASH);
    StripEndsRight(path);
    PathOfSplit(core);
    hide Split, Strip, PathOf;
    EndsInSlash(segs);
    assert core != "" ==> ("/" + core)[|core|] != '/';
  }

  lemma EndsInSlash(segs: seq<string>)
    requires segs != [] && segs[|segs| - 1] == ""
    ensures var path := PathOf(segs); path != "" && path[|path| - 1] == '/'
  {
  }

  /** For example `a//b`: its middle crumb is labelled "" and leads to the crumb before it. */
  lemma DoubleSlashLosesCrumb()
    ensures Segments("a//b") == ["a", "", "b"]
    ensures var crumbs := Crumbs(Segments("a//b"));
            crumbs[2] == ("", "/a/") && Crumbs(Segments(crumbs[2].1)) == crumbs[..2]
  {
    hide PathOf, Segments, Crumbs, Split;
    var segs := ["a", "", "b"];
    DoubleSlashSegments();
    TrailingSlash();
    CrumbsPrefix(segs, 1);
    assert segs[..1] == ["a"];
    MiddleCrumb();
  }

  lemma MiddlePath()
    ensures PathOf(["a", ""]) == "/a/"
  {
    PathOfOne("a");
    assert ["a", ""][..1] == ["a"];
    assert "/a" + "/" + "" == "/a/";
  }

  lemma MiddleCrumb()
    ensures Crumbs(["a", "", "b"])[2] == ("", "/a/")
  {
    MiddlePath();
    assert ["a", "", "b"][..2] == ["a", ""];
  }

  lemma DoubleSlashSegments()
    ensures Segments("a//b") == ["a", "", "b"]
  {
    var segs := ["a", "", "b"];
    MiddlePath();
    assert segs[..2] == ["a", ""];
    assert PathOf(segs) == "/a/" + "/" + "b" == "/a//b";
    hide PathOf, Split;
    SplitPathOf(segs);
    StrippedIff("a//b", SLASH);
    assert "/a//b"[1..] == "a//b";
  }

  lemma TrailingSlash()
    ensures Segments("/a/") == ["a"]
  {
    PathLeadsBack(["a"]);
    PathOfOne("a");
    StripDropsLast("/a", '/', SLASH);
    assert "/a" + ['/'] == "/a/";
    assert "/" + "a" == "/a";
  }

  /** Slashes at both ends do not count; the first crumb is always the root. */
  lemma EndsDoNotCount(path: string)
    requires path == "" || (path[0] != '/' && path[|path| - 1] != '/')
    ensures Segments("/" + path + "/") == Segments(path) == (if path == "" then [] else Split(path))
    ensures Crumbs(Segments(path))[0] == ("Vault", "/")
  {
    hide Split;
    StripDropsLast("/" + path, '/', SLASH);
    StripAfterDropped('/', path, SLASH);
    assert "/" + path + "/" == "/" + path + ['/'] && "/" + path == ['/'] + path;
    StrippedIff(path, SLASH);
  }
}
