/** The two Backblaze B2 readers of rclone.conf, and the B2 stanza printer. */
module B2Conf {
  import opened Wrappers
  import opened Text
  import opened RcloneConf

  const TYPE_B2 := ("type", "b2")

  // ---------------------------------------------------------------- what the readers look for

  /** `type = b2`, an account and a key have all been seen: the latest account and key. */
  function KeysNow(body: Body): Option<(string, string)> {
    var account, key := Latest(body, "account"), Latest(body, "key");
    if TYPE_B2 in body && account.Some? && key.Some? then Some((account.value, key.value)) else None
  }

  /** The keys at the first line of the stanza where they are complete. */
  function ReadKeys(body: Body): Option<(string, string)> {
    AtFirst(body, KeysNow)
  }

  function B2Keys(bodies: seq<Body>): Option<(string, string)> {
    FirstOf(bodies, ReadKeys)
  }

  /** The lines after the first `type = b2`. */
  function AfterType(body: Body): Body {
    if body == [] then []
    else
      var before := body[..|body| - 1];
      if TYPE_B2 in before then AfterType(before) + [body[|body| - 1]] else []
  }

  /** After `type = b2` an account, a key and a bucket have been seen: the latest of each. */
  function CredentialsNow(body: Body): Option<(string, string, string)> {
    var rest := AfterType(body);
    var account, key, bucket := Latest(rest, "account"), Latest(rest, "key"), Latest(rest, "bucket");
    if TYPE_B2 in body && account.Some? && key.Some? && bucket.Some?
    then Some((account.value, key.value, bucket.value)) else None
  }

  function ReadCredentials(body: Body): Option<(string, string, string)> {
    AtFirst(body, CredentialsNow)
  }

  const EVERY: string -> bool := name => true

  /** Every stanza counts, and so do the lines before the first header. */
  function B2Credentials(conf: string): Option<(string, string, string)> {
    FirstOf(Bodies([Header("")] + Parsed(conf), EVERY), ReadCredentials)
  }

  lemma ReadingsSettle()
    ensures Settles(ReadKeys) && Settles(ReadCredentials)
  {
    forall body: Body, pair: (string, string)
      ensures (body + [pair])[..|body|] == body
    {
    }
  }

  // ---------------------------------------------------------------- the named remote

  /** The state of the loop of `ParseB2ApiKeysForRemote` after `lines`. */
  ghost predicate ReadingKeys(lines: seq<Line>, pick: string -> bool,
                              inTarget: bool, isB2: bool, account: Option<string>, key: Option<string>)
  {
    && inTarget == InTarget(lines, pick)
    && B2Keys(Bodies(lines, pick)) == None
    && (inTarget ==> KeysRead(Last(Bodies(lines, pick)), isB2, account, key))
  }

  /** The variables hold what the current stanza says so far. */
  predicate KeysRead(body: Body, isB2: bool, account: Option<string>, key: Option<string>) {
    isB2 == (TYPE_B2 in body) && account == Latest(body, "account") && key == Latest(body, "key")
  }

  lemma NotYetComplete(lines: seq<Line>, pick: string -> bool,
                       inTarget: bool, isB2: bool, account: Option<string>, key: Option<string>)
    requires ReadingKeys(lines, pick, inTarget, isB2, account, key)
    ensures B2Keys(Bodies(lines, pick)) == None
    ensures !(inTarget && isB2 && account.Some? && key.Some?)
  {
  }

  /** Lines that only move between stanzas. */
  lemma KeysPass(lines: seq<Line>, i: nat, pick: string -> bool,
                 inTarget: bool, isB2: bool, account: Option<string>, key: Option<string>)
    requires i < |lines| && ReadingKeys(lines[..i], pick, inTarget, isB2, account, key)
    ensures lines[i].Header? ==> ReadingKeys(lines[..i + 1], pick, pick(lines[i].name), false, None, None)
    ensures lines[i].Other? || (lines[i].Pair? && !inTarget) ==>
              ReadingKeys(lines[..i + 1], pick, inTarget, isB2, account, key)
  {
    hide Bodies, InTarget, FirstOf, Latest, AtFirst;
    BodiesAdvance(lines, i, pick);
    FirstOfGrown(Bodies(lines[..i], pick), inTarget, lines[i], pick, ReadKeys);
    EmptyBody();
  }

  /** A pair of the stanza either completes the keys or adds to them. */
  lemma KeysPair(lines: seq<Line>, i: nat, pick: string -> bool, k: string, v: string, isB2: bool,
                 account: Option<string>, key: Option<string>,
                 isB2': bool, account': Option<string>, key': Option<string>)
    requires i < |lines| && lines[i] == Pair(k, v) && ReadingKeys(lines[..i], pick, true, isB2, account, key)
    requires isB2' == (isB2 || (k == "type" && v == "b2"))
    requires account' == (if k == "account" then Some(v) else account) && key' == (if k == "key" then Some(v) else key)
    ensures if isB2' && account'.Some? && key'.Some?
            then B2Keys(Bodies(lines, pick)) == Some((account'.value, key'.value))
            else ReadingKeys(lines[..i + 1], pick, true, isB2', account', key')
  {
    hide Bodies, InTarget, FirstOf, Settles, KeysRead, KeysNow, ReadKeys;
    var bodies, longer := Bodies(lines[..i], pick), Bodies(lines[..i + 1], pick);
    BodiesAdvance(lines, i, pick);
    FirstOfGrown(bodies, true, lines[i], pick, ReadKeys);
    ReadKeysOfLast(bodies);
    KeysReadStep(Last(bodies), k, v, isB2, account, key, isB2', account', key');
    assert Last(longer) == Last(bodies) + [(k, v)];
    if FirstOf(longer, ReadKeys).Some? {
      ReadingsSettle();
      FoundEarly(lines, i + 1, pick, ReadKeys);
    }
  }

  lemma EmptyBody()
    ensures ReadKeys([]) == None && KeysRead([], false, None, None)
  {
  }

  lemma KeysReadStep(body: Body, k: string, v: string, isB2: bool, account: Option<string>, key: Option<string>,
                     isB2': bool, account': Option<string>, key': Option<string>)
    requires KeysRead(body, isB2, account, key) && ReadKeys(body) == None
    requires isB2' == (isB2 || (k == "type" && v == "b2"))
    requires account' == (if k == "account" then Some(v) else account) && key' == (if k == "key" then Some(v) else key)
    ensures KeysRead(body + [(k, v)], isB2', account', key')
    ensures ReadKeys(body + [(k, v)]) ==
            if isB2' && account'.Some? && key'.Some? then Some((account'.value, key'.value)) else None
  {
    assert (body + [(k, v)])[..|body|] == body;
  }

  lemma ReadKeysOfLast(bodies: seq<Body>)
    requires bodies != [] && B2Keys(bodies) == None
    ensures ReadKeys(Last(bodies)) == None
  {
  }

  /** The account and key of a B2 remote. The two returns that the loop would take at the end of the
      stanza and at the end of the file are never taken: the keys were returned when they became complete. */
  method ParseB2ApiKeysForRemote(conf: string, remoteName: string) returns (r: Option<(string, string)>)
    ensures r == B2Keys(Stanzas(conf, remoteName))
  {
    hide ReadingKeys, Bodies, InTarget, FirstOf, Trim, Find;
    var inTarget, isB2 := false, false;
    var account: Option<string>, key: Option<string> := None, None;
    var lines := Lines(conf);
    ghost var parsed, pick := Parsed(conf), Named(remoteName);
    assert parsed[..|lines|] == parsed;
    assert ReadingKeys(parsed[..0], pick, inTarget, isB2, account, key) by { NothingRead(parsed, pick); }
    for i := 0 to |lines|
      invariant ReadingKeys(parsed[..i], pick, inTarget, isB2, account, key)
    {
      KeysPass(parsed, i, pick, inTarget, isB2, account, key);
      NotYetComplete(parsed[..i], pick, inTarget, isB2, account, key);
      var trimmed := Trim(lines[i]);
      if IsHeader(trimmed) {
        assert !(inTarget && isB2 && account.Some? && key.Some?);
        var name := trimmed[1..|trimmed| - 1];
        inTarget := name == remoteName;
        isB2, account, key := false, None, None;
        continue;
      }
      if inTarget {
        match SplitOnce(trimmed, '=')
        case None =>
        case Some(pair) =>
          var k, v := Trim(pair.0), Trim(pair.1);
          ghost var isB2', account', key' := isB2, account, key;
          if k == "type" && v == "b2" {
            isB2 := true;
          } else if k == "account" {
            account := Some(v);
          } else if k == "key" {
            key := Some(v);
          }
          KeysPair(parsed, i, pick, k, v, isB2', account', key', isB2, account, key);
          if isB2 && account.Some? && key.Some? {
            return Some((account.value, key.value));
          }
      }
    }
    NotYetComplete(parsed, pick, inTarget, isB2, account, key);
    assert !(inTarget && isB2 && account.Some? && key.Some?);
    return None;
  }

  lemma NothingRead(parsed: seq<Line>, pick: string -> bool)
    ensures ReadingKeys(parsed[..0], pick, false, false, None, None)
  {
  }

  /** In stanza `s` the keys are complete for the first time at line `n`. */
  ghost predicate CompleteAt(bodies: seq<Body>, s: nat, n: nat, keys: (string, string)) {
    s < |bodies| && FirstAt(bodies[s], KeysNow, n, keys)
  }

  /** The keys are those of the first point, in the first stanza of that name that has one, where
      `type = b2`, an account and a key have all been seen. */
  lemma B2KeysIff(bodies: seq<Body>, keys: (string, string))
    ensures B2Keys(bodies) == Some(keys) <==>
              exists s, n :: CompleteAt(bodies, s, n, keys) && forall t :: 0 <= t < s ==> KeysNow(bodies[t]) == None
    ensures B2Keys(bodies) == None <==> forall t :: 0 <= t < |bodies| ==> KeysNow(bodies[t]) == None
  {
    FirstOfIff(bodies, ReadKeys, keys);
    forall t | 0 <= t < |bodies|
      ensures ReadKeys(bodies[t]) == None <==> KeysNow(bodies[t]) == None
      ensures ReadKeys(bodies[t]) == Some(keys) <==> exists n :: FirstAt(bodies[t], KeysNow, n, keys)
    {
      AtFirstIff(bodies[t], KeysNow, keys);
      OnceComplete(bodies[t]);
    }
    if B2Keys(bodies) == Some(keys) {
      var s :| 0 <= s < |bodies| && ReadKeys(bodies[s]) == Some(keys) &&
               forall t :: 0 <= t < s ==> ReadKeys(bodies[t]) == None;
      var n :| FirstAt(bodies[s], KeysNow, n, keys);
      assert CompleteAt(bodies, s, n, keys);
    }
  }

  /** Keys once complete stay complete. */
  lemma {:induction false} OnceComplete(body: Body)
    ensures ReadKeys(body) == None <==> KeysNow(body) == None
  {
    if body != [] {
      OnceComplete(body[..|body| - 1]);
      assert body == body[..|body| - 1] + [body[|body| - 1]];
    }
  }

  /** A stanza of another type is not read, whatever its other lines are. */
  lemma {:induction false} OtherTypeHasNoKeys(body: Body)
    requires ("type", "b2") !in body
    ensures ReadKeys(body) == None
  {
    if body != [] {
      OtherTypeHasNoKeys(body[..|body| - 1]);
    }
  }

  // ---------------------------------------------------------------- order of lines

  lemma {:induction false} DistinctKeysReadWhole(body: Body)
    requires DistinctKeys(body)
    ensures ReadKeys(body) == KeysNow(body)
  {
    if body != [] {
      var before, last := body[..|body| - 1], body[|body| - 1];
      DistinctKeysReadWhole(before);
      assert body == before + [last];
      if KeysNow(before).Some? {
        LatestDistinct(before, "account", KeysNow(before).value.0);
        LatestDistinct(before, "key", KeysNow(before).value.1);
        assert last.0 != "account" && last.0 != "key";
      }
    }
  }

  /** The order of the lines of a stanza is irrelevant as long as no key is repeated. */
  lemma LineOrderIrrelevant(pre: seq<Line>, name: string, s: seq<Line>, s': seq<Line>, post: seq<Line>, remote: string)
    requires Headless(s) && Headless(s') && AtBoundary(post) && SamePairs(BodyOf(s), BodyOf(s'))
    ensures B2Keys(Bodies(pre + ([Header(name)] + s) + post, Named(remote))) ==
            B2Keys(Bodies(pre + ([Header(name)] + s') + post, Named(remote)))
  {
    var body, body' := BodyOf(s), BodyOf(s');
    DistinctKeysReadWhole(body);
    DistinctKeysReadWhole(body');
    SamePairsSameValues(body, body', "account");
    SamePairsSameValues(body, body', "key");
    ReplaceStanza(pre, name, s, s', post, Named(remote), ReadKeys);
  }

  /** With a repeated key it matters: the value that is current when the keys become complete wins. */
  lemma RepeatedKeyOrderMatters()
    ensures ReadKeys([TYPE_B2, ("key", "k"), ("account", "a"), ("account", "b")]) == Some(("a", "k"))
    ensures ReadKeys([TYPE_B2, ("key", "k"), ("account", "b"), ("account", "a")]) == Some(("b", "k"))
  {
    FirstCompleteWins("a", "b");
    FirstCompleteWins("b", "a");
  }

  lemma FirstCompleteWins(x: string, y: string)
    ensures ReadKeys([TYPE_B2, ("key", "k"), ("account", x), ("account", y)]) == Some((x, "k"))
  {
    var body := [TYPE_B2, ("key", "k"), ("account", x), ("account", y)];
    var complete := [TYPE_B2, ("key", "k"), ("account", x)];
    assert body[..3] == complete && complete[..2] == [TYPE_B2, ("key", "k")];
    DistinctKeysReadWhole(complete);
    assert Latest(complete[..2], "key") == Some("k");
  }

  // ---------------------------------------------------------------- printing

  /** The stanza that a new B2 destination is saved as. */
  function B2Stanza(remote: string, account: string, key: string): string {
    "[" + remote + "]" + "\n" + ("type = b2" + "\n" + ("account = " + account + "\n" + ("key = " + key + "\n")))
  }

  lemma B2StanzaParsed(remote: string, account: string, key: string)
    requires '\n' !in remote && '\n' !in account && '\n' !in key
    ensures Parsed(B2Stanza(remote, account, key)) ==
            [Header(remote)] + [Pair("type", "b2"), Pair("account", Trim(account)), Pair("key", Trim(key))]
    ensures EndsLine(B2Stanza(remote, account, key))
  {
    hide Parsed, Classify;
    ParsedLine("key = " + key, "");
    ParsedLine("account = " + account, "key = " + key + "\n");
    ParsedLine("type = b2", "account = " + account + "\n" + ("key = " + key + "\n"));
    ParsedLine("[" + remote + "]", "type = b2" + "\n" + ("account = " + account + "\n" + ("key = " + key + "\n")));
    PrintedHeader(remote);
    B2Lines(account, key);
    assert "key = " + key + "\n" + "" == "key = " + key + "\n";
    NoLines();
  }

  lemma B2Lines(account: string, key: string)
    ensures Classify("type = b2") == Pair("type", "b2")
    ensures Classify("account = " + account) == Pair("account", Trim(account))
    ensures Classify("key = " + key) == Pair("key", Trim(key))
  {
    hide Classify;
    PrintedPair("type", "b2");
    PrintedPair("account", account);
    PrintedPair("key", key);
    TrimB2();
    assert "type" + " = " + "b2" == "type = b2";
    assert "account" + " = " == "account = " && "key" + " = " == "key = ";
  }

  lemma NoLines()
    ensures Parsed("") == []
  {
  }

  lemma TrimB2()
    ensures Trim("b2") == "b2"
  {
  }

  /** Printed into any config whose earlier stanzas of that name are not complete, and followed by anything,
      a stanza reads back as its account and key without the white space around them. */
  lemma PrintThenParse(pre: string, remote: string, account: string, key: string, post: string)
    requires '\n' !in remote && '\n' !in account && '\n' !in key
    requires EndsLine(pre) && B2Keys(Stanzas(pre, remote)) == None
    ensures B2Keys(Stanzas(pre + B2Stanza(remote, account, key) + post, remote)) == Some((Trim(account), Trim(key)))
  {
    hide Parsed, B2Stanza, Trim, Bodies, FirstOf;
    var stanza, pick := B2Stanza(remote, account, key), Named(remote);
    var rest := [Pair("type", "b2"), Pair("account", Trim(account)), Pair("key", Trim(key))];
    B2StanzaParsed(remote, account, key);
    ParsedConcat3(pre, stanza, post);
    var lines := Parsed(pre) + ([Header(remote)] + rest);
    BodiesConcat(Parsed(pre), [Header(remote)] + rest, pick);
    BodiesOfStanza(remote, rest, pick);
    var body := [TYPE_B2, ("account", Trim(account)), ("key", Trim(key))];
    PrintedBody(rest, Trim(account), Trim(key));
    FirstOfConcat(Bodies(Parsed(pre), pick), [body], ReadKeys);
    FirstOfOne(body);
    ReadingsSettle();
    EarlyResultIsFinal(lines, Parsed(post), pick, ReadKeys);
  }

  lemma FirstOfOne(body: Body)
    ensures FirstOf([body], ReadKeys) == ReadKeys(body)
  {
    assert [body][..0] == [];
  }

  lemma PrintedBody(rest: seq<Line>, account: string, key: string)
    requires rest == [Pair("type", "b2"), Pair("account", account), Pair("key", key)]
    ensures BodyOf(rest) == [TYPE_B2, ("account", account), ("key", key)]
    ensures ReadKeys(BodyOf(rest)) == Some((account, key))
  {
    var body := [TYPE_B2, ("account", account), ("key", key)];
    assert rest[..2] == [rest[0], rest[1]] && rest[..2][..1] == [rest[0]] && [rest[0]][..0] == [];
    assert BodyOf([rest[0]]) == [TYPE_B2];
    assert BodyOf(rest[..2]) == [TYPE_B2, body[1]];
    assert BodyOf(rest) == body;
    DistinctKeysReadWhole(body);
    assert body[..2] == [TYPE_B2, body[1]] && TYPE_B2 in body;
    assert Latest(body[..2], "account") == Some(account);
  }

  /** So exactly the account and key that were printed come back if and only if neither has white space around it. */
  lemma PrintedKeysComeBack(pre: string, remote: string, account: string, key: string, post: string)
    requires '\n' !in remote && '\n' !in account && '\n' !in key
    requires EndsLine(pre) && B2Keys(Stanzas(pre, remote)) == None
    ensures B2Keys(Stanzas(pre + B2Stanza(remote, account, key) + post, remote)) == Some((account, key)) <==>
              Stripped(account, IsSpace) && Stripped(key, IsSpace)
  {
    PrintThenParse(pre, remote, account, key, post);
    StrippedIff(account, IsSpace);
    StrippedIff(key, IsSpace);
  }

  // ---------------------------------------------------------------- any B2 remote

  /** The state of the loop of `ParseB2CredentialsFromConf` after `lines`. */
  ghost predicate ReadingCredentials(lines: seq<Line>, inB2Section: bool,
                                     account: Option<string>, key: Option<string>, bucket: Option<string>)
  {
    && InTarget(lines, EVERY)
    && FirstOf(Bodies(lines, EVERY), ReadCredentials) == None
    && SectionRead(Last(Bodies(lines, EVERY)), inB2Section, account, key, bucket)
  }

  predicate SectionRead(body: Body, inB2Section: bool, account: Option<string>, key: Option<string>,
                        bucket: Option<string>)
  {
    && inB2Section == (TYPE_B2 in body)
    && account == Latest(AfterType(body), "account")
    && key == Latest(AfterType(body), "key")
    && bucket == Latest(AfterType(body), "bucket")
  }

  /** What the loop's variables become at a pair, before the test for completeness. */
  ghost predicate SectionUpdate(k: string, v: string, inB2: bool,
                                account: Option<string>, key: Option<string>, bucket: Option<string>,
                                inB2': bool, account': Option<string>, key': Option<string>, bucket': Option<string>)
  {
    && inB2' == (inB2 || (k == "type" && v == "b2"))
    && account' == (if k == "account" && inB2 then Some(v) else account)
    && key' == (if k == "key" && inB2 then Some(v) else key)
    && bucket' == (if k == "bucket" && inB2 then Some(v) else bucket)
  }

  lemma SectionStep(body: Body, k: string, v: string,
                    inB2: bool, account: Option<string>, key: Option<string>, bucket: Option<string>,
                    inB2': bool, account': Option<string>, key': Option<string>, bucket': Option<string>)
    requires SectionRead(body, inB2, account, key, bucket) && ReadCredentials(body) == None
    requires SectionUpdate(k, v, inB2, account, key, bucket, inB2', account', key', bucket')
    ensures SectionRead(body + [(k, v)], inB2', account', key', bucket')
    ensures ReadCredentials(body + [(k, v)]) ==
            if inB2' && account'.Some? && key'.Some? && bucket'.Some?
            then Some((account'.value, key'.value, bucket'.value)) else None
  {
    var longer := body + [(k, v)];
    assert longer[..|body|] == body;
    var rest := AfterType(body);
    if inB2 {
      assert AfterType(longer) == rest + [(k, v)] && (rest + [(k, v)])[..|rest|] == rest;
    } else {
      NoTypeNoRest(body);
    }
  }

  lemma NoTypeNoRest(body: Body)
    requires TYPE_B2 !in body
    ensures AfterType(body) == []
  {
  }

  lemma CredentialsPass(lines: seq<Line>, i: nat,
                        inB2: bool, account: Option<string>, key: Option<string>, bucket: Option<string>)
    requires i < |lines| && ReadingCredentials(lines[..i], inB2, account, key, bucket)
    ensures lines[i].Header? ==> ReadingCredentials(lines[..i + 1], false, None, None, None)
    ensures lines[i].Other? ==> ReadingCredentials(lines[..i + 1], inB2, account, key, bucket)
    ensures !(inB2 && account.Some? && key.Some? && bucket.Some?)
  {
    hide Bodies, InTarget, FirstOf, Latest, AtFirst, AfterType;
    BodiesAdvance(lines, i, EVERY);
    FirstOfGrown(Bodies(lines[..i], EVERY), true, lines[i], EVERY, ReadCredentials);
    LastNotComplete(Bodies(lines[..i], EVERY));
    EmptySection();
  }

  lemma CredentialsPair(lines: seq<Line>, i: nat, k: string, v: string,
                        inB2: bool, account: Option<string>, key: Option<string>, bucket: Option<string>,
                        inB2': bool, account': Option<string>, key': Option<string>, bucket': Option<string>)
    requires i < |lines| && lines[i] == Pair(k, v) && ReadingCredentials(lines[..i], inB2, account, key, bucket)
    requires SectionUpdate(k, v, inB2, account, key, bucket, inB2', account', key', bucket')
    ensures if inB2' && account'.Some? && key'.Some? && bucket'.Some?
            then FirstOf(Bodies(lines, EVERY), ReadCredentials) == Some((account'.value, key'.value, bucket'.value))
            else ReadingCredentials(lines[..i + 1], inB2', account', key', bucket')
  {
    hide Bodies, InTarget, FirstOf, Settles, SectionRead, SectionUpdate, ReadCredentials, CredentialsNow;
    var bodies, longer := Bodies(lines[..i], EVERY), Bodies(lines[..i + 1], EVERY);
    BodiesAdvance(lines, i, EVERY);
    FirstOfGrown(bodies, true, lines[i], EVERY, ReadCredentials);
    LastNotComplete(bodies);
    SectionStep(Last(bodies), k, v, inB2, account, key, bucket, inB2', account', key', bucket');
    assert Last(longer) == Last(bodies) + [(k, v)];
    if FirstOf(longer, ReadCredentials).Some? {
      ReadingsSettle();
      FoundEarly(lines, i + 1, EVERY, ReadCredentials);
    }
  }

  lemma EmptySection()
    ensures SectionRead([], false, None, None, None) && ReadCredentials([]) == None
  {
  }

  lemma LastNotComplete(bodies: seq<Body>)
    requires bodies != [] && FirstOf(bodies, ReadCredentials) == None
    ensures ReadCredentials(Last(bodies)) == None && CredentialsNow(Last(bodies)) == None
  {
  }

  /** Account, key and bucket of the first point where a section has all three after its `type = b2`. */
  method ParseB2CredentialsFromConf(conf: string) returns (r: Option<(string, string, string)>)
    ensures r == B2Credentials(conf)
  {
    hide ReadingCredentials, Bodies, InTarget, FirstOf, Trim, Find, Lines, IsSpace, SplitOnce;
    var account: Option<string>, key: Option<string>, bucket: Option<string> := None, None, None;
    var inB2Section := false;
    var lines := Lines(conf);
    ghost var parsed := [Header("")] + Parsed(conf);
    assert parsed[..|parsed|] == parsed;
    SectionsBegin(parsed);
    for i := 0 to |lines|
      invariant ReadingCredentials(parsed[..i + 1], inB2Section, account, key, bucket)
    {
      CredentialsPass(parsed, i + 1, inB2Section, account, key, bucket);
      var trimmed := Trim(lines[i]);
      assert parsed[i + 1] == Classify(lines[i]);
      if IsHeader(trimmed) {
        inB2Section, account, key, bucket := false, None, None, None;
        continue;
      }
      match SplitOnce(trimmed, '=') {
        case None =>
        case Some(pair) =>
          var k, v := Trim(pair.0), Trim(pair.1);
          ghost var inB2', account', key', bucket' := inB2Section, account, key, bucket;
          if k == "type" && v == "b2" {
            inB2Section := true;
          } else if k == "account" && inB2Section {
            account := Some(v);
          } else if k == "key" && inB2Section {
            key := Some(v);
          } else if k == "bucket" && inB2Section {
            bucket := Some(v);
          }
          CredentialsPair(parsed, i + 1, k, v, inB2', account', key', bucket', inB2Section, account, key, bucket);
      }
      if inB2Section && account.Some? && key.Some? && bucket.Some? {
        return Some((account.value, key.value, bucket.value));
      }
    }
    NoCredentials(parsed, inB2Section, account, key, bucket);
    return None;
  }

  lemma SectionsBegin(parsed: seq<Line>)
    requires parsed != [] && parsed[0] == Header("")
    ensures ReadingCredentials(parsed[..1], false, None, None, None)
  {
    BodiesAdvance(parsed, 0, EVERY);
    EmptySection();
    FirstOfGrown([], false, parsed[0], EVERY, ReadCredentials);
  }

  lemma NoCredentials(lines: seq<Line>, inB2: bool, account: Option<string>, key: Option<string>,
                      bucket: Option<string>)
    requires ReadingCredentials(lines, inB2, account, key, bucket)
    ensures FirstOf(Bodies(lines, EVERY), ReadCredentials) == None
  {
  }

  lemma {:induction false} AfterTypeIs(body: Body, t: nat)
    requires t < |body| && body[t] == TYPE_B2 && TYPE_B2 !in body[..t]
    ensures AfterType(body) == body[t + 1..]
  {
    var before := body[..|body| - 1];
    if t < |before| {
      assert before[t] == body[t] && before[..t] == body[..t];
      AfterTypeIs(before, t);
      assert before[t + 1..] + [body[|body| - 1]] == body[t + 1..];
    } else {
      assert before == body[..t];
    }
  }

  /** Unlike the reader of a named remote, this one depends on the order of lines: with no key repeated it
      succeeds if and only if account, key and bucket all come after `type = b2`. */
  lemma CredentialsIff(body: Body, account: string, key: string, bucket: string)
    requires DistinctKeys(body)
    ensures ReadCredentials(body) == Some((account, key, bucket)) <==>
              exists t :: 0 <= t < |body| && body[t] == TYPE_B2 && ("account", account) in body[t + 1..] &&
                          ("key", key) in body[t + 1..] && ("bucket", bucket) in body[t + 1..]
  {
    DistinctCredentialsReadWhole(body);
    if TYPE_B2 in body {
      var t :| 0 <= t < |body| && body[t] == TYPE_B2;
      AfterTypeIs(body, t);
      var rest := body[t + 1..];
      LatestDistinct(rest, "account", account);
      LatestDistinct(rest, "key", key);
      LatestDistinct(rest, "bucket", bucket);
    }
  }

  /** For example a section with its account before its type: the reader of a named remote finds the keys, this
      one finds nothing. */
  lemma AccountBeforeType()
    ensures var body := [("account", "a"), TYPE_B2, ("key", "k"), ("bucket", "b")];
            ReadKeys(body) == Some(("a", "k")) && ReadCredentials(body) == None
  {
    var body := [("account", "a"), TYPE_B2, ("key", "k"), ("bucket", "b")];
    assert body[2..] == [("key", "k"), ("bucket", "b")];
    forall account, key, bucket
      ensures ReadCredentials(body) != Some((account, key, bucket))
    {
      CredentialsIff(body, account, key, bucket);
    }
    assert ReadCredentials(body).Some? ==>
             var (a, k, b) := ReadCredentials(body).value; ReadCredentials(body) != Some((a, k, b));
    DistinctKeysReadWhole(body);
    LatestDistinct(body, "account", "a");
    LatestDistinct(body, "key", "k");
    assert body[0] in body && body[1] in body && body[2] in body;
  }

  lemma {:induction false} DistinctCredentialsReadWhole(body: Body)
    requires DistinctKeys(body)
    ensures ReadCredentials(body) == CredentialsNow(body)
  {
    if body != [] {
      var before, last := body[..|body| - 1], body[|body| - 1];
      DistinctCredentialsReadWhole(before);
      assert body == before + [last];
      if CredentialsNow(before).Some? {
        var rest := AfterType(before);
        assert (rest + [last])[..|rest|] == rest;
        forall k | Latest(rest, k).Some?
          ensures last.0 != k
        {
          LatestInBody(before, k);
        }
      }
    }
  }

  lemma {:induction false} LatestInBody(body: Body, key: string)
    requires Latest(AfterType(body), key).Some?
    ensures exists i :: 0 <= i < |body| && body[i].0 == key
  {
    var before, last := body[..|body| - 1], body[|body| - 1];
    var rest := AfterType(before);
    assert (rest + [last])[..|rest|] == rest;
    if last.0 != key {
      LatestInBody(before, key);
      var i :| 0 <= i < |before| && before[i].0 == key;
      assert body[i].0 == key;
    }
  }

  lemma {:induction false} OtherTypesRead(body: Body)
    requires TYPE_B2 !in body
    ensures ReadCredentials(body) == None
  {
    if body != [] {
      OtherTypesRead(body[..|body| - 1]);
    }
  }

  /** A stanza without `type = b2` may be inserted or deleted at any stanza boundary. */
  lemma OtherProvidersInvisible(pre: string, stanza: string, post: string)
    requires EndsLine(pre) && (EndsLine(stanza) || post == "")
    requires IsStanza(Parsed(stanza)) && TYPE_B2 !in BodyOf(Parsed(stanza)[1..])
    requires AtBoundary(Parsed(post))
    ensures B2Credentials(pre + stanza + post) == B2Credentials(pre + post)
  {
    hide Parsed, Bodies, FirstOf, AtBoundary, BodyOf, EndsLine;
    var p, s, q := Parsed(pre), Parsed(stanza), Parsed(post);
    ParsedConcat3(pre, stanza, post);
    ParsedConcat(pre, post);
    assert [Header("")] + (p + s + q) == [Header("")] + p + s + q;
    assert [Header("")] + (p + q) == [Header("")] + p + q;
    LinesInvisible([Header("")] + p, s, q);
  }

  lemma LinesInvisible(pre: seq<Line>, stanza: seq<Line>, post: seq<Line>)
    requires IsStanza(stanza) && TYPE_B2 !in BodyOf(stanza[1..]) && AtBoundary(post)
    ensures FirstOf(Bodies(pre + stanza + post, EVERY), ReadCredentials) ==
            FirstOf(Bodies(pre + post, EVERY), ReadCredentials)
  {
    hide Bodies, FirstOf;
    var rest := stanza[1..];
    BodiesConcat(pre + stanza, post, EVERY);
    BodiesConcat(pre, stanza, EVERY);
    BodiesConcat(pre, post, EVERY);
    assert stanza == [Header(stanza[0].name)] + rest;
    BodiesOfStanza(stanza[0].name, rest, EVERY);
    OtherTypesRead(BodyOf(rest));
    InvisibleBody(Bodies(pre, EVERY), BodyOf(rest), Bodies(post, EVERY));
  }

  lemma InvisibleBody(front: seq<Body>, body: Body, back: seq<Body>)
    requires ReadCredentials(body) == None
    ensures FirstOf(front + [body] + back, ReadCredentials) == FirstOf(front + back, ReadCredentials)
  {
    FirstOfConcat(front + [body], back, ReadCredentials);
    FirstOfConcat(front, back, ReadCredentials);
    assert (front + [body])[..|front|] == front;
  }
}
