/** The line-by-line readers of rclone.conf. Each is a loop over flags with early returns; each is proved
    equal to a reading of the bodies of the stanzas it is about, and from that come locality, order
    independence and the round trip with the stanza printer. */
module RcloneConf {
  import opened Wrappers
  import opened Text

  // ---------------------------------------------------------------- text

  /** Unicode White_Space. */
  predicate IsSpace(c: char) {
    || '\U{0009}' <= c <= '\U{000D}' || c == '\U{0020}' || c == '\U{0085}' || c == '\U{00A0}' || c == '\U{1680}'
    || '\U{2000}' <= c <= '\U{200A}' || '\U{2028}' <= c <= '\U{2029}' || c == '\U{202F}' || c == '\U{205F}'
    || c == '\U{3000}'
  }

  /** The characters that are trimmed, one by one. */
  lemma SpacesListed(c: char)
    ensures IsSpace(c) <==>
              c in "\t\n\U{000B}\U{000C}\r \U{0085}\U{00A0}\U{1680}" ||
              c in "\U{2000}\U{2001}\U{2002}\U{2003}\U{2004}\U{2005}\U{2006}\U{2007}\U{2008}\U{2009}\U{200A}" ||
              c in "\U{2028}\U{2029}\U{202F}\U{205F}\U{3000}"
  {
  }

  function Trim(s: string): string {
    Strip(s, IsSpace)
  }

  function StripCr(s: string): string {
    if s != "" && s[|s| - 1] == '\r' then s[..|s| - 1] else s
  }

  /** Lines end at '\n' or "\r\n"; the last need not end. */
  function Lines(text: string): (lines: seq<string>)
    decreases |text|
  {
    if text == "" then []
    else
      var n := Find(text, '\n');
      if n == |text| then [text] else [StripCr(text[..n])] + Lines(text[n + 1..])
  }

  // ---------------------------------------------------------------- lines

  datatype Line = Header(name: string) | Pair(key: string, value: string) | Other

  predicate IsHeader(trimmed: string) {
    trimmed != "" && trimmed[0] == '[' && trimmed[|trimmed| - 1] == ']'
  }

  function SplitOnce(s: string, c: char): Option<(string, string)> {
    var n := Find(s, c);
    if n == |s| then None else Some((s[..n], s[n + 1..]))
  }

  function Classify(line: string): Line {
    var trimmed := Trim(line);
    if IsHeader(trimmed) then Header(trimmed[1..|trimmed| - 1])
    else match SplitOnce(trimmed, '=')
      case Some(kv) => Pair(Trim(kv.0), Trim(kv.1))
      case None => Other
  }

  function ClassifyAll(lines: seq<string>): (all: seq<Line>)
    ensures |all| == |lines| && forall i :: 0 <= i < |lines| ==> all[i] == Classify(lines[i])
  {
    seq(|lines|, i requires 0 <= i < |lines| => Classify(lines[i]))
  }

  function Parsed(conf: string): seq<Line> {
    ClassifyAll(Lines(conf))
  }

  // ---------------------------------------------------------------- stanzas

  type Body = seq<(string, string)>

  /** The last header, if any, is one of those picked. */
  predicate InTarget(lines: seq<Line>, pick: string -> bool) {
    lines != [] &&
    var last := lines[|lines| - 1];
    if last.Header? then pick(last.name) else InTarget(lines[..|lines| - 1], pick)
  }

  /** What one more line does to the bodies read so far. */
  function Grown(bodies: seq<Body>, inTarget: bool, line: Line, pick: string -> bool): (longer: seq<Body>)
    requires inTarget ==> bodies != []
    ensures |bodies| <= |longer|
  {
    match line
    case Header(name) => if pick(name) then bodies + [[]] else bodies
    case Pair(k, v) =>
      if inTarget then bodies[..|bodies| - 1] + [bodies[|bodies| - 1] + [(k, v)]] else bodies
    case Other => bodies
  }

  /** The key-value pairs of each stanza whose name is picked, in file order. */
  function Bodies(lines: seq<Line>, pick: string -> bool): (bodies: seq<Body>)
    ensures InTarget(lines, pick) ==> bodies != []
  {
    if lines == [] then []
    else
      var before := lines[..|lines| - 1];
      Grown(Bodies(before, pick), InTarget(before, pick), lines[|lines| - 1], pick)
  }

  function Named(remote: string): string -> bool {
    name => name == remote
  }

  /** All that the readers of a named remote look at. */
  function Stanzas(conf: string, remote: string): seq<Body> {
    Bodies(Parsed(conf), Named(remote))
  }

  predicate AtBoundary(rest: seq<Line>) {
    rest == [] || rest[0].Header?
  }

  lemma GrownConcat(front: seq<Body>, bodies: seq<Body>, inTarget: bool, line: Line, pick: string -> bool)
    requires inTarget ==> bodies != []
    ensures Grown(front + bodies, inTarget, line, pick) == front + Grown(bodies, inTarget, line, pick)
  {
    if inTarget {
      assert (front + bodies)[..|front + bodies| - 1] == front + bodies[..|bodies| - 1];
    }
  }

  /** Cutting a config at a stanza boundary cuts its stanzas. */
  lemma {:induction false} BodiesConcat(lines: seq<Line>, rest: seq<Line>, pick: string -> bool)
    requires AtBoundary(rest)
    ensures Bodies(lines + rest, pick) == Bodies(lines, pick) + Bodies(rest, pick)
    ensures rest != [] ==> InTarget(lines + rest, pick) == InTarget(rest, pick)
    decreases |rest|
  {
    if rest == [] {
      assert lines + rest == lines;
    } else {
      var before, last := rest[..|rest| - 1], rest[|rest| - 1];
      BodiesConcat(lines, before, pick);
      assert (lines + rest)[..|lines + rest| - 1] == lines + before;
      if before == [] {
        GrownConcat(Bodies(lines, pick), [], false, last, pick);
      } else {
        hide Grown;
        GrownConcat(Bodies(lines, pick), Bodies(before, pick), InTarget(before, pick), last, pick);
      }
    }
  }

  /** The pairs among lines without a header. */
  function BodyOf(lines: seq<Line>): Body {
    if lines == [] then []
    else
      var before, last := lines[..|lines| - 1], lines[|lines| - 1];
      BodyOf(before) + (if last.Pair? then [(last.key, last.value)] else [])
  }

  predicate Headless(lines: seq<Line>) {
    forall i :: 0 <= i < |lines| ==> !lines[i].Header?
  }

  lemma GrownSingle(body: Body, line: Line, pick: string -> bool)
    requires !line.Header?
    ensures Grown([body], true, line, pick) == [body + (if line.Pair? then [(line.key, line.value)] else [])]
  {
    if line.Other? {
      assert body + [] == body;
    }
  }

  lemma {:induction false} BodiesOfStanza(name: string, lines: seq<Line>, pick: string -> bool)
    requires Headless(lines)
    ensures Bodies([Header(name)] + lines, pick) == if pick(name) then [BodyOf(lines)] else []
    ensures InTarget([Header(name)] + lines, pick) == pick(name)
  {
    var all := [Header(name)] + lines;
    if lines == [] {
      assert all[..0] == [];
    } else {
      var before := lines[..|lines| - 1];
      BodiesOfStanza(name, before, pick);
      assert all[..|all| - 1] == [Header(name)] + before;
      GrownSingle(BodyOf(before), lines[|lines| - 1], pick);
    }
  }

  // ---------------------------------------------------------------- locality

  predicate EndsLine(text: string) {
    text == "" || text[|text| - 1] == '\n'
  }

  lemma {:induction false} LinesConcat(a: string, b: string)
    requires EndsLine(a)
    ensures Lines(a + b) == Lines(a) + Lines(b)
    decreases |a|
  {
    hide Lines, EndsLine;
    if a == "" {
      NoLines();
      assert a + b == b;
    } else {
      var line, rest := FirstLine(a);
      LinesConcat(rest, b);
      LinesConcatLine(line, rest, b);
    }
  }

  lemma NoLines()
    ensures Lines("") == []
  {
  }

  lemma FirstLine(a: string) returns (line: string, rest: string)
    requires a != "" && EndsLine(a)
    ensures a == line + ['\n'] + rest && '\n' !in line && EndsLine(rest) && |rest| < |a|
  {
    FindLast(a, '\n');
    var n := Find(a, '\n');
    line, rest := a[..n], a[n + 1..];
  }

  lemma LinesConcatLine(line: string, rest: string, b: string)
    requires '\n' !in line && Lines(rest + b) == Lines(rest) + Lines(b)
    ensures Lines(line + ['\n'] + rest + b) == Lines(line + ['\n'] + rest) + Lines(b)
  {
    hide Lines, StripCr;
    LinesCons(line, rest);
    LinesCons(line, rest + b);
    assert line + ['\n'] + rest + b == line + ['\n'] + (rest + b);
  }

  lemma LinesCons(line: string, rest: string)
    requires '\n' !in line
    ensures Lines(line + ['\n'] + rest) == [StripCr(line)] + Lines(rest)
  {
    hide Find;
    FindIs(line, '\n', rest);
    var text := line + ['\n'] + rest;
    assert text[..|line|] == line && text[|line| + 1..] == rest;
  }

  lemma ParsedConcat(a: string, b: string)
    requires EndsLine(a)
    ensures Parsed(a + b) == Parsed(a) + Parsed(b)
  {
    LinesConcat(a, b);
  }

  /** Text that holds one stanza: its header line and lines that are not headers. */
  predicate IsStanza(lines: seq<Line>) {
    lines != [] && lines[0].Header? && Headless(lines[1..])
  }

  /** Inserting or deleting, at a stanza boundary, a whole stanza with another name changes nothing that
      a reader of `remote` looks at, whatever the rest of the config is. */
  lemma StanzaLocality(pre: string, stanza: string, post: string, remote: string)
    requires EndsLine(pre) && (EndsLine(stanza) || post == "")
    requires IsStanza(Parsed(stanza)) && Parsed(stanza)[0].name != remote
    requires AtBoundary(Parsed(post))
    ensures Stanzas(pre + stanza + post, remote) == Stanzas(pre + post, remote)
  {
    var p, s, q, pick := Parsed(pre), Parsed(stanza), Parsed(post), Named(remote);
    ParsedConcat3(pre, stanza, post);
    ParsedConcat(pre, post);
    hide Parsed, Bodies;
    LinesLocality(p, s, q, pick);
  }

  lemma LinesLocality(pre: seq<Line>, stanza: seq<Line>, post: seq<Line>, pick: string -> bool)
    requires IsStanza(stanza) && !pick(stanza[0].name) && AtBoundary(post)
    ensures Bodies(pre + stanza + post, pick) == Bodies(pre + post, pick)
  {
    var rest := stanza[1..];
    hide Bodies;
    BodiesConcat(pre + stanza, post, pick);
    BodiesConcat(pre, stanza, pick);
    BodiesConcat(pre, post, pick);
    assert stanza == [Header(stanza[0].name)] + rest;
    BodiesOfStanza(stanza[0].name, rest, pick);
  }

  lemma ParsedConcat3(pre: string, stanza: string, post: string)
    requires EndsLine(pre) && (EndsLine(stanza) || post == "")
    ensures Parsed(pre + stanza + post) == Parsed(pre) + Parsed(stanza) + Parsed(post)
  {
    var p, s, q := Parsed(pre), Parsed(stanza), Parsed(post);
    if post == "" {
      assert pre + stanza + post == pre + stanza && pre + post == pre;
      ParsedConcat(pre, stanza);
      assert q == [];
      assert p + s + q == p + s;
    } else {
      assert pre + stanza + post == pre + (stanza + post);
      ParsedConcat(pre, stanza + post);
      ParsedConcat(stanza, post);
      assert p + (s + q) == p + s + q;
    }
  }

  // ---------------------------------------------------------------- reading bodies

  /** The latest value of a key. */
  function Latest(body: Body, key: string): Option<string> {
    if body == [] then None
    else
      var last := body[|body| - 1];
      if last.0 == key then Some(last.1) else Latest(body[..|body| - 1], key)
  }

  /** The latest value of a key that is not empty. */
  function LatestNonEmpty(body: Body, key: string): Option<string> {
    if body == [] then None
    else
      var last := body[|body| - 1];
      if last.0 == key && last.1 != "" then Some(last.1) else LatestNonEmpty(body[..|body| - 1], key)
  }

  /** The first stanza that reads as something. */
  function FirstOf<T>(bodies: seq<Body>, read: Body -> Option<T>): Option<T> {
    if bodies == [] then None
    else
      var r := FirstOf(bodies[..|bodies| - 1], read);
      if r.Some? then r else read(bodies[|bodies| - 1])
  }

  lemma {:induction false} FirstOfConcat<T>(a: seq<Body>, b: seq<Body>, read: Body -> Option<T>)
    ensures FirstOf(a + b, read) == if FirstOf(a, read).Some? then FirstOf(a, read) else FirstOf(b, read)
    decreases |b|
  {
    if b == [] {
      assert a + b == a;
    } else {
      FirstOfConcat(a, b[..|b| - 1], read);
      assert (a + b)[..|a + b| - 1] == a + b[..|b| - 1];
    }
  }

  lemma {:induction false} FirstOfIff<T>(bodies: seq<Body>, read: Body -> Option<T>, x: T)
    ensures FirstOf(bodies, read) == Some(x) <==>
              exists s :: 0 <= s < |bodies| && read(bodies[s]) == Some(x) &&
                          forall t :: 0 <= t < s ==> read(bodies[t]) == None
    ensures FirstOf(bodies, read) == None <==> forall t :: 0 <= t < |bodies| ==> read(bodies[t]) == None
    decreases |bodies|
  {
    if bodies != [] {
      var before := bodies[..|bodies| - 1];
      FirstOfIff(before, read, x);
      forall t | 0 <= t < |before|
        ensures before[t] == bodies[t]
      {
      }
      if FirstOf(bodies, read) == Some(x) {
        if FirstOf(before, read) == Some(x) {
          var s :| 0 <= s < |before| && read(before[s]) == Some(x) &&
                   forall t :: 0 <= t < s ==> read(before[t]) == None;
          assert read(bodies[s]) == Some(x);
        } else {
          assert read(bodies[|bodies| - 1]) == Some(x);
        }
      }
    }
  }

  /** A reading that, once it yields something, is not changed by later lines of the stanza. */
  ghost predicate Settles<T(!new)>(read: Body -> Option<T>) {
    forall body: Body, pair :: read(body).Some? ==> read(body + [pair]) == read(body)
  }

  /** With such a reading the first result is final, whatever the config goes on with. */
  lemma {:induction false} EarlyResultIsFinal<T(!new)>(lines: seq<Line>, more: seq<Line>, pick: string -> bool,
                                                       read: Body -> Option<T>)
    requires Settles(read) && FirstOf(Bodies(lines, pick), read).Some?
    ensures FirstOf(Bodies(lines + more, pick), read) == FirstOf(Bodies(lines, pick), read)
    decreases |more|
  {
    if more == [] {
      assert lines + more == lines;
    } else {
      hide FirstOf, Settles, Bodies;
      var before := more[..|more| - 1];
      EarlyResultIsFinal(lines, before, pick, read);
      var all := lines + more;
      assert all[..|all| - 1] == lines + before;
      FinalLine(all, pick, read);
    }
  }

  lemma FoundEarly<T(!new)>(lines: seq<Line>, i: nat, pick: string -> bool, read: Body -> Option<T>)
    requires i <= |lines| && Settles(read) && FirstOf(Bodies(lines[..i], pick), read).Some?
    ensures FirstOf(Bodies(lines, pick), read) == FirstOf(Bodies(lines[..i], pick), read)
  {
    hide FirstOf, Settles, Bodies;
    assert lines[..i] + lines[i..] == lines;
    EarlyResultIsFinal(lines[..i], lines[i..], pick, read);
  }

  lemma FinalLine<T(!new)>(lines: seq<Line>, pick: string -> bool, read: Body -> Option<T>)
    requires lines != [] && Settles(read) && FirstOf(Bodies(lines[..|lines| - 1], pick), read).Some?
    ensures FirstOf(Bodies(lines, pick), read) == FirstOf(Bodies(lines[..|lines| - 1], pick), read)
  {
    hide FirstOf, Settles, Grown;
    var before := lines[..|lines| - 1];
    FinalStep(Bodies(before, pick), InTarget(before, pick), lines[|lines| - 1], pick, read);
  }

  lemma FinalStep<T(!new)>(bodies: seq<Body>, inTarget: bool, line: Line, pick: string -> bool, read: Body -> Option<T>)
    requires (inTarget ==> bodies != []) && Settles(read) && FirstOf(bodies, read).Some?
    ensures FirstOf(Grown(bodies, inTarget, line, pick), read) == FirstOf(bodies, read)
  {
    match line
    case Header(name) =>
      FirstOfConcat(bodies, [[]], read);
    case Pair(k, v) =>
      if inTarget {
        SettledLast(bodies, (k, v), read);
      }
    case Other =>
  }

  lemma SettledLast<T(!new)>(bodies: seq<Body>, pair: (string, string), read: Body -> Option<T>)
    requires bodies != [] && Settles(read) && FirstOf(bodies, read).Some?
    ensures FirstOf(bodies[..|bodies| - 1] + [bodies[|bodies| - 1] + [pair]], read) == FirstOf(bodies, read)
  {
    var front, last := bodies[..|bodies| - 1], bodies[|bodies| - 1];
    assert (front + [last + [pair]])[..|front|] == front;
    assert read(last).Some? ==> read(last + [pair]) == read(last);
  }

  function Last(bodies: seq<Body>): Body
    requires bodies != []
  {
    bodies[|bodies| - 1]
  }

  /** While nothing has been found, one more line is found out from the stanza it belongs to alone. */
  lemma FirstOfGrown<T>(bodies: seq<Body>, inTarget: bool, line: Line, pick: string -> bool, read: Body -> Option<T>)
    requires (inTarget ==> bodies != []) && FirstOf(bodies, read) == None
    ensures FirstOf(Grown(bodies, inTarget, line, pick), read) ==
            match line
            case Header(name) => if pick(name) then read([]) else None
            case Pair(k, v) => if inTarget then read(Last(bodies) + [(k, v)]) else None
            case Other => None
  {
    var longer := Grown(bodies, inTarget, line, pick);
    match line
    case Header(name) =>
      assert pick(name) ==> longer[..|longer| - 1] == bodies;
    case Pair(k, v) =>
      assert inTarget ==> longer[..|longer| - 1] == bodies[..|bodies| - 1];
    case Other =>
  }

  /** The loops advance over one line at a time. */
  lemma BodiesAdvance(lines: seq<Line>, i: nat, pick: string -> bool)
    requires i < |lines|
    ensures Bodies(lines[..i + 1], pick) == Grown(Bodies(lines[..i], pick), InTarget(lines[..i], pick), lines[i], pick)
    ensures InTarget(lines[..i + 1], pick) ==
            if lines[i].Header? then pick(lines[i].name) else InTarget(lines[..i], pick)
  {
    assert lines[..i + 1][..i] == lines[..i];
  }

  /** The first prefix of a stanza that reads as something. */
  function AtFirst<T>(body: Body, read: Body -> Option<T>): Option<T> {
    if body == [] then read([])
    else
      var r := AtFirst(body[..|body| - 1], read);
      if r.Some? then r else read(body)
  }

  ghost predicate FirstAt<T(!new)>(body: Body, read: Body -> Option<T>, n: nat, x: T) {
    n <= |body| && read(body[..n]) == Some(x) && forall m :: 0 <= m < n ==> read(body[..m]) == None
  }

  lemma {:induction false} AtFirstIff<T(!new)>(body: Body, read: Body -> Option<T>, x: T)
    ensures AtFirst(body, read) == Some(x) <==> exists n :: FirstAt(body, read, n, x)
    ensures AtFirst(body, read) == None <==> forall m :: 0 <= m <= |body| ==> read(body[..m]) == None
  {
    assert body[..|body|] == body;
    if body == [] {
      assert FirstAt(body, read, 0, x) <==> read([]) == Some(x);
    } else {
      var before := body[..|body| - 1];
      AtFirstIff(before, read, x);
      assert forall m :: 0 <= m < |body| ==> before[..m] == body[..m];
      assert forall n: nat :: n < |body| ==> (FirstAt(before, read, n, x) <==> FirstAt(body, read, n, x));
      if AtFirst(body, read) == Some(x) && AtFirst(before, read) == None {
        assert FirstAt(body, read, |body|, x);
      }
    }
  }

  /** Two stanzas that read alike can stand for one another in any config. */
  lemma ReplaceStanza<T>(pre: seq<Line>, name: string, s: seq<Line>, s': seq<Line>, post: seq<Line>,
                         pick: string -> bool, read: Body -> Option<T>)
    requires Headless(s) && Headless(s') && AtBoundary(post) && read(BodyOf(s)) == read(BodyOf(s'))
    ensures FirstOf(Bodies(pre + ([Header(name)] + s) + post, pick), read) ==
            FirstOf(Bodies(pre + ([Header(name)] + s') + post, pick), read)
  {
    hide Bodies, Grown;
    forall t | t == s || t == s'
      ensures Bodies(pre + ([Header(name)] + t) + post, pick) ==
              Bodies(pre, pick) + (if pick(name) then [BodyOf(t)] else []) + Bodies(post, pick)
    {
      BodiesConcat(pre + ([Header(name)] + t), post, pick);
      BodiesConcat(pre, [Header(name)] + t, pick);
      BodiesOfStanza(name, t, pick);
    }
    if pick(name) {
      ReplaceBody(Bodies(pre, pick), BodyOf(s), BodyOf(s'), Bodies(post, pick), read);
    }
  }

  lemma ReplaceBody<T>(front: seq<Body>, body: Body, body': Body, back: seq<Body>, read: Body -> Option<T>)
    requires read(body) == read(body')
    ensures FirstOf(front + [body] + back, read) == FirstOf(front + [body'] + back, read)
  {
    forall b | b == body || b == body'
      ensures FirstOf(front + [b], read) == if FirstOf(front, read).Some? then FirstOf(front, read) else read(b)
    {
      assert (front + [b])[..|front|] == front;
    }
    FirstOfConcat(front + [body], back, read);
    FirstOfConcat(front + [body'], back, read);
  }

  // ---------------------------------------------------------------- stanzas with distinct keys

  predicate DistinctKeys(body: Body) {
    forall i, j :: 0 <= i < j < |body| ==> body[i].0 != body[j].0
  }

  /** The same pairs, in any order. */
  ghost predicate SamePairs(body: Body, body': Body) {
    && DistinctKeys(body) && DistinctKeys(body')
    && (forall p :: p in body <==> p in body')
  }

  lemma {:induction false} LatestDistinct(body: Body, key: string, value: string)
    requires DistinctKeys(body)
    ensures Latest(body, key) == Some(value) <==> (key, value) in body
    ensures LatestNonEmpty(body, key) == Some(value) <==> (key, value) in body && value != ""
  {
    if body != [] {
      var before := body[..|body| - 1];
      LatestDistinct(before, key, value);
      assert body == before + [body[|body| - 1]];
    }
  }

  lemma SamePairsSameValues(body: Body, body': Body, key: string)
    requires SamePairs(body, body')
    ensures Latest(body, key) == Latest(body', key)
    ensures LatestNonEmpty(body, key) == LatestNonEmpty(body', key)
  {
    forall v
      ensures Latest(body, key) == Some(v) <==> Latest(body', key) == Some(v)
      ensures LatestNonEmpty(body, key) == Some(v) <==> LatestNonEmpty(body', key) == Some(v)
    {
      LatestDistinct(body, key, v);
      LatestDistinct(body', key, v);
    }
    assert Latest(body, key).Some? ==> Latest(body', key) == Some(Latest(body, key).value);
    assert Latest(body', key).Some? ==> Latest(body, key) == Some(Latest(body', key).value);
    assert LatestNonEmpty(body, key).Some? ==> LatestNonEmpty(body', key) == Some(LatestNonEmpty(body, key).value);
    assert LatestNonEmpty(body', key).Some? ==> LatestNonEmpty(body, key) == Some(LatestNonEmpty(body', key).value);
  }

  // ---------------------------------------------------------------- printed lines

  lemma ClassifyStripCr(line: string)
    ensures Classify(StripCr(line)) == Classify(line)
  {
    if line != "" && line[|line| - 1] == '\r' {
      StripDropsLast(StripCr(line), '\r', IsSpace);
      assert StripCr(line) + ['\r'] == line;
    }
  }

  lemma ParsedLine(line: string, rest: string)
    requires '\n' !in line
    ensures Parsed(line + "\n" + rest) == [Classify(line)] + Parsed(rest)
  {
    LinesCons(line, rest);
    assert line + ['\n'] + rest == line + "\n" + rest;
    ClassifyStripCr(line);
  }

  lemma PrintedHeader(name: string)
    ensures Classify("[" + name + "]") == Header(name)
  {
    var line := "[" + name + "]";
    assert line[0] == '[' && line[|line| - 1] == ']';
    assert Trim(line) == line;
    assert line[1..|line| - 1] == name;
  }

  /** A printed pair reads back as its key and its value without the white space around it. */
  lemma PrintedPair(key: string, value: string)
    requires key != "" && Stripped(key, IsSpace) && key[0] != '[' && '=' !in key
    ensures Classify(key + " = " + value) == Pair(key, Trim(value))
  {
    var z := PrintedLine(key, value);
    var trimmed := Trim(key + " = " + value);
    assert trimmed[0] == key[0];
    FindIs(key + " ", '=', z);
    assert trimmed[..|key| + 1] == key + " " && trimmed[|key| + 2..] == z;
    StrippedIff(key, IsSpace);
    StripDropsLast(key, ' ', IsSpace);
  }

  /** What is left of a printed line once it is trimmed. */
  lemma PrintedLine(key: string, value: string) returns (z: string)
    requires key != "" && !IsSpace(key[0])
    ensures Trim(key + " = " + value) == key + " " + ['='] + z && Trim(z) == Trim(value)
  {
    hide Strip, TrimStart, TrimEnd;
    var line := key + " = " + value;
    var end := TrimEnd(value, IsSpace);
    StripOfNonSpace(line);
    TrimEndConcat(key + " = ", value, IsSpace);
    PrintedKey(key);
    StripAfterTrimEnd(value, IsSpace);
    if end == "" {
      z := "";
      assert key + " =" == key + " " + ['='] + z;
    } else {
      z := " " + end;
      StripAfterDropped(' ', end, IsSpace);
      assert key + " = " + end == key + " " + ['='] + z;
    }
  }

  lemma StripOfNonSpace(s: string)
    requires s != "" && !IsSpace(s[0])
    ensures Strip(s, IsSpace) == TrimEnd(s, IsSpace)
  {
  }

  lemma PrintedKey(key: string)
    ensures TrimEnd(key + " = ", IsSpace) == key + " ="
  {
    var s := key + " = ";
    assert s[..|s| - 1] == key + " =";
  }
}
