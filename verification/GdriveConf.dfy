/** The two Google Drive readers of rclone.conf. Looking up a string field in the token's JSON text is a
    parameter. */
module GdriveConf {
  import opened Wrappers
  import opened Text
  import opened RcloneConf

  const TYPE_DRIVE := ("type", "drive")

  datatype OAuth = OAuth(clientId: string, clientSecret: string, refreshToken: string, rootFolderId: Option<string>)

  /** The lookup of one field of a JSON object: none if the text is not JSON or has no such string. */
  type Lookup = string -> Option<string>

  function OrEmpty(s: Option<string>): string {
    if s.Some? then s.value else ""
  }

  /** Missing client fields become empty strings; a token with a refresh token is needed. */
  function BuildGdriveResult(clientId: Option<string>, clientSecret: Option<string>, token: Option<string>,
                             rootFolderId: Option<string>, refreshToken: Lookup): (r: Option<OAuth>)
    ensures r.Some? <==> token.Some? && refreshToken(token.value).Some?
    ensures r.Some? ==>
              && Some(r.value.refreshToken) == refreshToken(token.value) && r.value.rootFolderId == rootFolderId
              && r.value.clientId == OrEmpty(clientId) && r.value.clientSecret == OrEmpty(clientSecret)
  {
    if token.None? then None
    else match refreshToken(token.value)
      case None => None
      case Some(refresh) => Some(OAuth(OrEmpty(clientId), OrEmpty(clientSecret), refresh, rootFolderId))
  }

  /** What a whole stanza says: it has `type = drive` and the latest value of each field. */
  function ReadOAuth(refreshToken: Lookup): Body -> Option<OAuth> {
    body =>
      if TYPE_DRIVE !in body then None
      else BuildGdriveResult(Latest(body, "client_id"), Latest(body, "client_secret"), Latest(body, "token"),
                             LatestNonEmpty(body, "root_folder_id"), refreshToken)
  }

  /** The latest token of the first stanza of the name, whatever its type. */
  function AccessToken(bodies: seq<Body>, accessToken: Lookup): Option<string> {
    if bodies == [] then None
    else match Latest(bodies[0], "token")
      case None => None
      case Some(token) => accessToken(token)
  }

  // ---------------------------------------------------------------- OAuth credentials

  /** The variables of the loop hold what the current stanza says so far. */
  predicate StanzaRead(body: Body, isDrive: bool, clientId: Option<string>, clientSecret: Option<string>,
                       token: Option<string>, root: Option<string>)
  {
    && isDrive == (TYPE_DRIVE in body)
    && clientId == Latest(body, "client_id") && clientSecret == Latest(body, "client_secret")
    && token == Latest(body, "token") && root == LatestNonEmpty(body, "root_folder_id")
  }

  lemma StanzaStep(body: Body, k: string, v: string, isDrive: bool,
                   clientId: Option<string>, clientSecret: Option<string>, token: Option<string>, root: Option<string>)
    requires StanzaRead(body, isDrive, clientId, clientSecret, token, root)
    ensures StanzaRead(body + [(k, v)], isDrive || (k == "type" && v == "drive"),
                       if k == "client_id" then Some(v) else clientId,
                       if k == "client_secret" then Some(v) else clientSecret,
                       if k == "token" then Some(v) else token,
                       if k == "root_folder_id" && v != "" then Some(v) else root)
  {
    assert (body + [(k, v)])[..|body|] == body;
  }

  /** The bodies before the one being read say nothing. */
  ghost predicate NothingBefore(lines: seq<Line>, pick: string -> bool, read: Body -> Option<OAuth>, inTarget: bool) {
    && inTarget == InTarget(lines, pick)
    && var bodies := Bodies(lines, pick);
       FirstOf(if inTarget then bodies[..|bodies| - 1] else bodies, read) == None
  }

  /** Credentials of the first stanza of that name which, read as a whole, is a Drive stanza with a usable token. */
  method ParseGdriveOauthFromConf(conf: string, remoteName: string, refreshToken: Lookup) returns (r: Option<OAuth>)
    ensures r == FirstOf(Stanzas(conf, remoteName), ReadOAuth(refreshToken))
  {
    hide Bodies, InTarget, FirstOf, Trim, Find, NothingBefore, StanzaRead;
    var inTarget, isDrive := false, false;
    var clientId: Option<string>, clientSecret: Option<string> := None, None;
    var token: Option<string>, root: Option<string> := None, None;
    var lines := Lines(conf);
    ghost var parsed, pick, read := Parsed(conf), Named(remoteName), ReadOAuth(refreshToken);
    ghost var body: Body := [];
    assert parsed[..|lines|] == parsed;
    OAuthBegins(parsed, pick, read);
    for i := 0 to |lines|
      invariant NothingBefore(parsed[..i], pick, read, inTarget)
      invariant inTarget ==> Bodies(parsed[..i], pick) != [] && body == Last(Bodies(parsed[..i], pick))
      invariant StanzaRead(body, isDrive, clientId, clientSecret, token, root)
    {
      OAuthStep(parsed, i, pick, read, inTarget);
      ReadsAs(body, isDrive, clientId, clientSecret, token, root, refreshToken);
      var trimmed := Trim(lines[i]);
      if IsHeader(trimmed) {
        if inTarget && isDrive {
          var result := BuildGdriveResult(clientId, clientSecret, token, root, refreshToken);
          if result.Some? {
            return result;
          }
        }
        var name := trimmed[1..|trimmed| - 1];
        inTarget := name == remoteName;
        isDrive, clientId, clientSecret, token, root := false, None, None, None, None;
        body := [];
        EmptyStanza();
        continue;
      }
      if inTarget {
        match SplitOnce(trimmed, '=')
        case None =>
        case Some(pair) =>
          var k, v := Trim(pair.0), Trim(pair.1);
          StanzaStep(body, k, v, isDrive, clientId, clientSecret, token, root);
          body := body + [(k, v)];
          if k == "type" && v == "drive" {
            isDrive := true;
          } else if k == "client_id" {
            clientId := Some(v);
          } else if k == "client_secret" {
            clientSecret := Some(v);
          } else if k == "token" {
            token := Some(v);
          } else if k == "root_folder_id" && v != "" {
            root := Some(v);
          }
      }
    }
    ReadsAs(body, isDrive, clientId, clientSecret, token, root, refreshToken);
    OAuthEnds(parsed, pick, read, inTarget);
    if inTarget && isDrive {
      r := BuildGdriveResult(clientId, clientSecret, token, root, refreshToken);
    } else {
      r := None;
    }
  }

  lemma EmptyStanza()
    ensures StanzaRead([], false, None, None, None, None)
  {
  }

  lemma OAuthBegins(parsed: seq<Line>, pick: string -> bool, read: Body -> Option<OAuth>)
    ensures NothingBefore(parsed[..0], pick, read, false) && StanzaRead([], false, None, None, None, None)
  {
  }

  lemma ReadsAs(body: Body, isDrive: bool, clientId: Option<string>, clientSecret: Option<string>,
                token: Option<string>, root: Option<string>, refreshToken: Lookup)
    requires StanzaRead(body, isDrive, clientId, clientSecret, token, root)
    ensures ReadOAuth(refreshToken)(body) ==
            if isDrive then BuildGdriveResult(clientId, clientSecret, token, root, refreshToken) else None
  {
  }

  lemma OAuthEnds(lines: seq<Line>, pick: string -> bool, read: Body -> Option<OAuth>, inTarget: bool)
    requires NothingBefore(lines, pick, read, inTarget)
    ensures inTarget ==> Bodies(lines, pick) != []
    ensures FirstOf(Bodies(lines, pick), read) == if inTarget then read(Last(Bodies(lines, pick))) else None
  {
  }

  lemma OAuthStep(lines: seq<Line>, i: nat, pick: string -> bool, read: Body -> Option<OAuth>, inTarget: bool)
    requires i < |lines| && NothingBefore(lines[..i], pick, read, inTarget)
    ensures inTarget ==> Bodies(lines[..i], pick) != []
    ensures match lines[i]
            case Header(name) =>
              if inTarget && read(Last(Bodies(lines[..i], pick))).Some?
              then FirstOf(Bodies(lines, pick), read) == read(Last(Bodies(lines[..i], pick)))
              else NothingBefore(lines[..i + 1], pick, read, pick(name)) &&
                   (pick(name) ==> Bodies(lines[..i + 1], pick) != [] && Last(Bodies(lines[..i + 1], pick)) == [])
            case Pair(k, v) =>
              NothingBefore(lines[..i + 1], pick, read, inTarget) &&
              (inTarget ==> Bodies(lines[..i + 1], pick) != [] &&
                            Last(Bodies(lines[..i + 1], pick)) == Last(Bodies(lines[..i], pick)) + [(k, v)])
            case Other =>
              NothingBefore(lines[..i + 1], pick, read, inTarget) &&
              Bodies(lines[..i + 1], pick) == Bodies(lines[..i], pick)
  {
    var bodies, longer := Bodies(lines[..i], pick), Bodies(lines[..i + 1], pick);
    OAuthEnds(lines[..i], pick, read, inTarget);
    BodiesAdvance(lines, i, pick);
    hide Bodies, InTarget, FirstOf;
    match lines[i]
    case Header(name) =>
      assert lines[..i] + lines[i..] == lines;
      BodiesConcat(lines[..i], lines[i..], pick);
      FirstOfConcat(bodies, Bodies(lines[i..], pick), read);
      assert pick(name) ==> longer[..|longer| - 1] == bodies;
    case Pair(k, v) =>
      assert inTarget ==> longer[..|longer| - 1] == bodies[..|bodies| - 1];
    case Other =>
  }

  /** The order of the lines of a stanza is irrelevant as long as no key is repeated. */
  lemma LineOrderIrrelevant(pre: seq<Line>, name: string, s: seq<Line>, s': seq<Line>, post: seq<Line>,
                            remote: string, refreshToken: Lookup)
    requires Headless(s) && Headless(s') && AtBoundary(post) && SamePairs(BodyOf(s), BodyOf(s'))
    ensures FirstOf(Bodies(pre + ([Header(name)] + s) + post, Named(remote)), ReadOAuth(refreshToken)) ==
            FirstOf(Bodies(pre + ([Header(name)] + s') + post, Named(remote)), ReadOAuth(refreshToken))
  {
    var body, body' := BodyOf(s), BodyOf(s');
    SamePairsSameValues(body, body', "client_id");
    SamePairsSameValues(body, body', "client_secret");
    SamePairsSameValues(body, body', "token");
    SamePairsSameValues(body, body', "root_folder_id");
    ReplaceStanza(pre, name, s, s', post, Named(remote), ReadOAuth(refreshToken));
  }

  // ---------------------------------------------------------------- access token

  method ParseGdriveAccessTokenFromConf(conf: string, remoteName: string, accessToken: Lookup)
    returns (r: Option<string>)
    ensures r == AccessToken(Stanzas(conf, remoteName), accessToken)
  {
    hide Bodies, InTarget, Trim, Find, FirstStanza;
    var inTarget := false;
    var token: Option<string> := None;
    var lines := Lines(conf);
    ghost var parsed, pick := Parsed(conf), Named(remoteName);
    assert parsed[..|lines|] == parsed;
    TokenBegins(parsed, pick);
    var i := 0;
    while i < |lines|
      invariant i <= |lines| && FirstStanza(parsed[..i], pick, inTarget, token)
    {
      TokenStep(parsed, i, pick, inTarget, token);
      var trimmed := Trim(lines[i]);
      if IsHeader(trimmed) {
        if inTarget {
          break;
        }
        var name := trimmed[1..|trimmed| - 1];
        inTarget := name == remoteName;
        i := i + 1;
        continue;
      }
      if inTarget {
        match SplitOnce(trimmed, '=')
        case None =>
        case Some(pair) =>
          if Trim(pair.0) == "token" {
            token := Some(Trim(pair.1));
          }
      }
      i := i + 1;
    }
    TokenEnds(parsed, i, pick, inTarget, token);
    match token
    case None => return None;
    case Some(text) => return accessToken(text);
  }

  /** No stanza of that name has ended; the token is the latest of the one being read. */
  ghost predicate FirstStanza(lines: seq<Line>, pick: string -> bool, inTarget: bool, token: Option<string>) {
    && inTarget == InTarget(lines, pick)
    && (if inTarget then |Bodies(lines, pick)| == 1 && token == Latest(Bodies(lines, pick)[0], "token")
        else Bodies(lines, pick) == [] && token == None)
  }

  lemma TokenBegins(parsed: seq<Line>, pick: string -> bool)
    ensures FirstStanza(parsed[..0], pick, false, None)
  {
  }

  lemma TokenStep(lines: seq<Line>, i: nat, pick: string -> bool, inTarget: bool, token: Option<string>)
    requires i < |lines| && FirstStanza(lines[..i], pick, inTarget, token)
    ensures match lines[i]
            case Header(name) => !inTarget ==> FirstStanza(lines[..i + 1], pick, pick(name), token)
            case Pair(k, v) =>
              FirstStanza(lines[..i + 1], pick, inTarget, if inTarget && k == "token" then Some(v) else token)
            case Other => FirstStanza(lines[..i + 1], pick, inTarget, token)
  {
    var bodies, longer := Bodies(lines[..i], pick), Bodies(lines[..i + 1], pick);
    BodiesAdvance(lines, i, pick);
    hide Bodies, InTarget;
    if lines[i].Pair? && inTarget {
      var body, pair := bodies[0], (lines[i].key, lines[i].value);
      assert longer[0] == body + [pair] && (body + [pair])[..|body|] == body;
    }
  }

  lemma TokenEnds(lines: seq<Line>, i: nat, pick: string -> bool, inTarget: bool, token: Option<string>)
    requires i <= |lines| && FirstStanza(lines[..i], pick, inTarget, token)
    requires i < |lines| ==> lines[i].Header? && inTarget
    ensures if inTarget then Bodies(lines, pick) != [] && token == Latest(Bodies(lines, pick)[0], "token")
            else Bodies(lines, pick) == [] && token == None
  {
    assert lines[..i] + lines[i..] == lines;
    BodiesConcat(lines[..i], lines[i..], pick);
  }

  /** With no key repeated, a stanza reads as exactly the values of its lines: it is a Drive stanza, its token has a
      refresh token, and a missing client field is empty. */
  lemma OAuthIff(body: Body, refreshToken: Lookup, token: string, refresh: string)
    requires DistinctKeys(body) && ("token", token) in body
    ensures (ReadOAuth(refreshToken)(body).Some? && ReadOAuth(refreshToken)(body).value.refreshToken == refresh) <==>
              ("type", "drive") in body && refreshToken(token) == Some(refresh)
    ensures ReadOAuth(refreshToken)(body).Some? ==>
              var oauth := ReadOAuth(refreshToken)(body).value;
              && (forall v :: ("client_id", v) in body ==> oauth.clientId == v)
              && (forall v :: ("client_secret", v) in body ==> oauth.clientSecret == v)
              && (forall v :: oauth.rootFolderId == Some(v) <==> ("root_folder_id", v) in body && v != "")
  {
    LatestDistinct(body, "token", token);
    forall v
      ensures Latest(body, "client_id") == Some(v) <==> ("client_id", v) in body
      ensures Latest(body, "client_secret") == Some(v) <==> ("client_secret", v) in body
      ensures LatestNonEmpty(body, "root_folder_id") == Some(v) <==> ("root_folder_id", v) in body && v != ""
    {
      LatestDistinct(body, "client_id", v);
      LatestDistinct(body, "client_secret", v);
      LatestDistinct(body, "root_folder_id", v);
    }
  }

  /** A config whose first stanza of that name has one token line yields the looked-up field of that token, whatever
      other lines the stanza has and whatever follows it. */
  lemma FirstTokenRead(pre: seq<Line>, name: string, before: seq<Line>, token: string, rest: seq<Line>, post: seq<Line>,
                       accessToken: Lookup)
    requires Bodies(pre, Named(name)) == [] && Headless(before) && Headless(rest) && AtBoundary(post)
    requires forall i :: 0 <= i < |rest| ==> !(rest[i].Pair? && rest[i].key == "token")
    ensures AccessToken(Bodies(pre + ([Header(name)] + (before + [Pair("token", token)] + rest)) + post, Named(name)),
                        accessToken) == accessToken(token)
  {
    hide Bodies, BodyOf, Latest;
    var lines := before + [Pair("token", token)] + rest;
    BodiesConcat(pre + ([Header(name)] + lines), post, Named(name));
    BodiesConcat(pre, [Header(name)] + lines, Named(name));
    BodiesOfStanza(name, lines, Named(name));
    TokenIsLatest(before, token, rest);
  }

  lemma {:induction false} TokenIsLatest(before: seq<Line>, token: string, rest: seq<Line>)
    requires forall i :: 0 <= i < |rest| ==> !(rest[i].Pair? && rest[i].key == "token")
    ensures Latest(BodyOf(before + [Pair("token", token)] + rest), "token") == Some(token)
    decreases |rest|
  {
    var lines := before + [Pair("token", token)] + rest;
    var body := BodyOf(lines[..|lines| - 1]);
    if rest == [] {
      assert lines[..|lines| - 1] == before;
      assert (body + [("token", token)])[..|body|] == body;
    } else {
      var last := rest[|rest| - 1];
      TokenIsLatest(before, token, rest[..|rest| - 1]);
      assert lines[..|lines| - 1] == before + [Pair("token", token)] + rest[..|rest| - 1];
      if last.Pair? {
        assert (body + [(last.key, last.value)])[..|body|] == body;
      } else {
        assert body + [] == body;
      }
    }
  }
}
