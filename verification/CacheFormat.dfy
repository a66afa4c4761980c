/** The on-disk envelope of a cached token, how it is read back, and why it cannot be mistaken for the
    bare token an earlier format stored, nor the other way round. */
module CacheFormat {
  import opened Wrappers
  import opened Text
  import opened Json
  import opened JsonText

  const CACHE_VERSION := "awsauth.cache.v2"

  datatype CacheEntry = CacheEntry(version: string, credential: string, token: string)

  /** The claims read from a token's payload; `aud` is absent or any JSON value. */
  datatype TokenClaims = TokenClaims(exp: int, aud: Option<Json>)

  /** The library codecs: an entry to JSON and back, unpadded base64url, and a payload's claims. */
  datatype Codec = Codec(marshal: CacheEntry -> string,
                         unmarshal: string -> Option<CacheEntry>,
                         base64: string -> Option<string>,
                         claims: string -> Option<TokenClaims>)

  // ----- the envelope as JSON -----

  function Marshal(e: CacheEntry): string {
    "{" + MemberText("v", e.version,
            "," + MemberText("credential", e.credential,
                    "," + MemberText("token", e.token, "}")))
  }

  /** Member names match whatever their case; the Kelvin sign is a letter k. */
  function FoldChar(c: char): char {
    if 'A' <= c <= 'Z' then (c as int + 32) as char
    else if c as int == 0x212A then 'k'
    else c
  }

  predicate Names(key: string, name: string) {
    |key| == |name| && forall i :: 0 <= i < |key| ==> FoldChar(key[i]) == name[i]
  }

  lemma FoldsTo(c: char, d: char)
    requires 'a' <= d <= 'z'
    ensures FoldChar(c) == d <==> c == d || c as int == d as int - 32 || (d == 'k' && c == '\U{212A}')
  {
  }

  /** The names that a known member may have in a file. */
  lemma KnownNames(key: string)
    ensures Names(key, "v") <==> |key| == 1 && key[0] in {'v', 'V'}
    ensures Names(key, "token") <==>
              && |key| == 5 && key[0] in {'t', 'T'} && key[1] in {'o', 'O'} && key[2] in {'k', 'K', '\U{212A}'}
              && key[3] in {'e', 'E'} && key[4] in {'n', 'N'}
    ensures Names(key, "credential") <==>
              && |key| == 10 && key[0] in {'c', 'C'} && key[1] in {'r', 'R'} && key[2] in {'e', 'E'}
              && key[3] in {'d', 'D'} && key[4] in {'e', 'E'} && key[5] in {'n', 'N'} && key[6] in {'t', 'T'}
              && key[7] in {'i', 'I'} && key[8] in {'a', 'A'} && key[9] in {'l', 'L'}
  {
    if |key| == 1 {
      FoldsTo(key[0], 'v');
    } else if |key| == 5 {
      FoldsTo(key[0], 't'); FoldsTo(key[1], 'o'); FoldsTo(key[2], 'k'); FoldsTo(key[3], 'e'); FoldsTo(key[4], 'n');
    } else if |key| == 10 {
      FoldsTo(key[0], 'c'); FoldsTo(key[1], 'r'); FoldsTo(key[2], 'e'); FoldsTo(key[3], 'd'); FoldsTo(key[4], 'e');
      FoldsTo(key[5], 'n'); FoldsTo(key[6], 't'); FoldsTo(key[7], 'i'); FoldsTo(key[8], 'a'); FoldsTo(key[9], 'l');
    }
  }

  /** One member taken into an entry: unknown members and nulls change nothing, the last of repeated ones
      stays, and a known member with another value than a string is an error. */
  function Taken(e: CacheEntry, member: Member): Option<CacheEntry> {
    var known := Names(member.key, "v") || Names(member.key, "credential") || Names(member.key, "token");
    if !known || member.value.Null? then Some(e)
    else if !member.value.Str? then None
    else if Names(member.key, "v") then Some(e.(version := member.value.s))
    else if Names(member.key, "credential") then Some(e.(credential := member.value.s))
    else Some(e.(token := member.value.s))
  }

  function AllTaken(e: CacheEntry, members: seq<Member>): Option<CacheEntry>
    decreases |members|
  {
    if members == [] then Some(e)
    else
      match Taken(e, members[0])
      case None => None
      case Some(f) => AllTaken(f, members[1..])
  }

  const NO_ENTRY := CacheEntry("", "", "")

  /** The entry that a text decodes to: an object's, or an empty one for null. */
  function Unmarshal(t: string): Option<CacheEntry> {
    match ReadText(t)
    case Some(Obj(members)) => AllTaken(NO_ENTRY, members)
    case Some(Null) => Some(NO_ENTRY)
    case _ => None
  }

  lemma LastMemberReads(name: string, s: string)
    requires forall c :: c in name ==> IsPlain(c)
    ensures ReadMembers(MemberText(name, s, "}")) == Some(([Member(name, Str(s))], ""))
  {
    MemberReads(name, s, "}");
    assert SkipSpace("}") == "}" && "}"[1..] == "";
  }

  lemma NextMemberReads(name: string, s: string, rest: string, members: seq<Member>)
    requires forall c :: c in name ==> IsPlain(c)
    requires rest != "" && !IsJsonSpace(rest[0]) && ReadMembers(rest) == Some((members, ""))
    ensures ReadMembers(MemberText(name, s, "," + rest)) == Some(([Member(name, Str(s))] + members, ""))
  {
    MemberReads(name, s, "," + rest);
    assert SkipSpace("," + rest) == "," + rest && ("," + rest)[1..] == rest;
    assert SkipSpace(rest) == rest;
  }

  function TokenMember(e: CacheEntry): Member {
    Member("token", Str(e.token))
  }

  function CredentialMember(e: CacheEntry): Member {
    Member("credential", Str(e.credential))
  }

  function VersionMember(e: CacheEntry): Member {
    Member("v", Str(e.version))
  }

  lemma LettersArePlain(name: string)
    requires forall i :: 0 <= i < |name| ==> 'a' <= name[i] <= 'z'
    ensures forall c :: c in name ==> IsPlain(c)
  {
  }

  lemma TokenReads(e: CacheEntry)
    ensures ReadMembers(MemberText("token", e.token, "}")) == Some(([TokenMember(e)], ""))
  {
    LettersArePlain("token");
    LastMemberReads("token", e.token);
  }

  lemma CredentialIsPlain(name: string)
    requires name == "credential"
    ensures forall c :: c in name ==> IsPlain(c)
  {
    LettersArePlain(name);
  }

  lemma CredentialReads(e: CacheEntry, token: string)
    requires token != "" && !IsJsonSpace(token[0]) && ReadMembers(token) == Some(([TokenMember(e)], ""))
    ensures ReadMembers(MemberText("credential", e.credential, "," + token))
         == Some(([CredentialMember(e)] + [TokenMember(e)], ""))
  {
    CredentialIsPlain("credential");
    NextMemberReads("credential", e.credential, token, [TokenMember(e)]);
  }

  lemma LastTwoRead(e: CacheEntry, t: string)
    requires t == MemberText("credential", e.credential, "," + MemberText("token", e.token, "}"))
    ensures ReadMembers(t) == Some(([CredentialMember(e), TokenMember(e)], ""))
  {
    TokenReads(e);
    CredentialReads(e, MemberText("token", e.token, "}"));
    assert [CredentialMember(e)] + [TokenMember(e)] == [CredentialMember(e), TokenMember(e)];
  }

  lemma AllRead(e: CacheEntry, credential: string)
    requires credential == MemberText("credential", e.credential, "," + MemberText("token", e.token, "}"))
    ensures ReadMembers(MemberText("v", e.version, "," + credential))
         == Some(([VersionMember(e)] + [CredentialMember(e), TokenMember(e)], ""))
  {
    LettersArePlain("v");
    LastTwoRead(e, credential);
    NextMemberReads("v", e.version, credential, [CredentialMember(e), TokenMember(e)]);
  }

  lemma EnvelopeMembers(e: CacheEntry)
    ensures ReadText(Marshal(e)) == Some(Obj([VersionMember(e)] + [CredentialMember(e), TokenMember(e)]))
  {
    var credential := MemberText("credential", e.credential, "," + MemberText("token", e.token, "}"));
    AllRead(e, credential);
    var members := [VersionMember(e)] + [CredentialMember(e), TokenMember(e)];
    ObjectReads(MemberText("v", e.version, "," + credential), members);
  }

  lemma ObjectReads(t: string, members: seq<Member>)
    requires t != "" && !IsJsonSpace(t[0]) && t[0] != '}' && ReadMembers(t) == Some((members, ""))
    ensures ReadText("{" + t) == Some(Obj(members))
  {
    assert ("{" + t)[1..] == t;
    assert SkipSpace(t) == t && SkipSpace("{" + t) == "{" + t;
  }

  lemma TakenInTurn(e: CacheEntry)
    ensures Taken(NO_ENTRY, VersionMember(e)) == Some(CacheEntry(e.version, "", ""))
    ensures Taken(CacheEntry(e.version, "", ""), CredentialMember(e)) == Some(CacheEntry(e.version, e.credential, ""))
    ensures Taken(CacheEntry(e.version, e.credential, ""), TokenMember(e)) == Some(e)
  {
    assert Names("v", "v") && Names("credential", "credential") && Names("token", "token");
    assert |"v"| == 1 && |"credential"| == 10 && |"token"| == 5;
  }

  /** Every envelope that is written decodes to the entry it was written from. */
  lemma EnvelopeRoundTrip(e: CacheEntry)
    ensures Unmarshal(Marshal(e)) == Some(e)
  {
    var v, credential, token := VersionMember(e), CredentialMember(e), TokenMember(e);
    EnvelopeMembers(e);
    TakenInTurn(e);
    assert [token][1..] == [] && [credential, token][1..] == [token];
    assert ([v] + [credential, token])[1..] == [credential, token] && ([v] + [credential, token])[0] == v;
    assert AllTaken(CacheEntry(e.version, e.credential, ""), [token]) == Some(e);
    assert AllTaken(CacheEntry(e.version, "", ""), [credential, token]) == Some(e);
    assert AllTaken(NO_ENTRY, [v] + [credential, token]) == Some(e);
  }

  // ----- what is assumed of the library codecs -----

  /** The encoder writes `Marshal`'s text and the decoder reads it; of any other text the decoder makes what
      `Unmarshal` does, or refuses it; and unpadded base64 of a length that no encoding has is refused. */
  ghost predicate FaithfulCodec(codec: Codec) {
    && (forall e :: codec.marshal(e) == Marshal(e) && codec.unmarshal(Marshal(e)).Some?)
    && (forall t :: codec.unmarshal(t).Some? ==> codec.unmarshal(t) == Unmarshal(t))
    && (forall s: string :: |s| % 4 == 1 && '\r' !in s && '\n' !in s ==> codec.base64(s).None?)
  }

  function PlainBase64(s: string): Option<string> {
    if |s| % 4 == 1 then None else Some(s)
  }

  lemma ReaderIsFaithful(codec: Codec)
    requires forall e :: codec.marshal(e) == Marshal(e)
    requires forall t :: codec.unmarshal(t) == Unmarshal(t)
    requires forall s :: codec.base64(s) == PlainBase64(s)
    ensures FaithfulCodec(codec)
  {
    forall e ensures codec.unmarshal(Marshal(e)).Some? {
      EnvelopeRoundTrip(e);
    }
  }

  /** The assumptions can be met together. */
  lemma FaithfulCodecExists()
    ensures exists codec :: FaithfulCodec(codec)
  {
    var codec := Codec(Marshal, Unmarshal, PlainBase64, s => None);
    ReaderIsFaithful(codec);
  }

  // ----- judging a cached token -----

  predicate IsSpace(c: char) {
    var n := c as int;
    || 9 <= n <= 13 || n == 0x20 || n == 0x85 || n == 0xA0 || n == 0x1680 || 0x2000 <= n <= 0x200A
    || n == 0x2028 || n == 0x2029 || n == 0x202F || n == 0x205F || n == 0x3000
  }

  function TrimSpace(s: string): string
    decreases |s|
  {
    if s == "" then ""
    else if IsSpace(s[0]) then TrimSpace(s[1..])
    else if IsSpace(s[|s| - 1]) then TrimSpace(s[..|s| - 1])
    else s
  }

  /** A string, or an array of strings; a null reads as the empty string. */
  function ParseAudience(aud: Option<Json>): seq<string> {
    match aud
    case None => []
    case Some(Str(s)) => [s]
    case Some(Null) => [""]
    case Some(Arr(elements)) =>
      if forall i :: 0 <= i < |elements| ==> elements[i].Str? || elements[i].Null?
      then seq(|elements|, i requires 0 <= i < |elements| => if elements[i].Str? then elements[i].s else "") else []
    case Some(_) => []
  }

  /** Expiry and audiences of a token, None when it is no readable token with an expiry. */
  function UnverifiedExpiryAudience(codec: Codec, token: string): Option<(int, seq<string>)> {
    var parts := Split(token, '.');
    if |parts| != 3 then None
    else
      var payload := codec.base64(parts[1]);
      if payload.None? then None
      else
        var claims := codec.claims(payload.value);
        if claims.None? || claims.value.exp == 0 then None
        else Some((claims.value.exp, ParseAudience(claims.value.aud)))
  }

  /** Nanoseconds; an expiry claim counts seconds. */
  function ExpiryTime(exp: int): int {
    exp * 1_000_000_000
  }

  predicate Usable(codec: Codec, token: string, audience: string, now: int) {
    && token != ""
    && UnverifiedExpiryAudience(codec, token).Some?
    && now < ExpiryTime(UnverifiedExpiryAudience(codec, token).value.0)
    && audience in UnverifiedExpiryAudience(codec, token).value.1
  }

  /** The token and expiry a cache file yields to a caller with these credentials; None is a miss. */
  function ReadEntry(codec: Codec, text: string, credID: string, audience: string, now: int): Option<(string, int)> {
    var entry := codec.unmarshal(text);
    if entry.None? || entry.value.version != CACHE_VERSION || entry.value.credential != credID then None
    else
      var token := TrimSpace(entry.value.token);
      if Usable(codec, token, audience, now)
      then Some((token, ExpiryTime(UnverifiedExpiryAudience(codec, token).value.0))) else None
  }

  lemma EnvelopeUnmarshals(codec: Codec, e: CacheEntry)
    requires FaithfulCodec(codec)
    ensures codec.marshal(e) == Marshal(e) && codec.unmarshal(codec.marshal(e)) == Some(e)
  {
    EnvelopeRoundTrip(e);
  }

  /** What the cache protocol needs of a codec. */
  ghost predicate RoundTrips(codec: Codec) {
    forall e :: codec.unmarshal(codec.marshal(e)) == Some(e)
  }

  lemma FaithfulCodecRoundTrips(codec: Codec)
    requires FaithfulCodec(codec)
    ensures RoundTrips(codec)
  {
    forall e ensures codec.unmarshal(codec.marshal(e)) == Some(e) {
      EnvelopeUnmarshals(codec, e);
    }
  }

  /** What the library writes for a token minted under these credentials. */
  function Envelope(credID: string, token: string): CacheEntry {
    CacheEntry(CACHE_VERSION, credID, token)
  }

  /** What the file yields to these credentials. */
  function Lookup(codec: Codec, content: Option<string>, credID: string, audience: string, now: int)
    : Option<(string, int)>
  {
    if content.None? then None else ReadEntry(codec, content.value, credID, audience, now)
  }

  /** The file after a write that got as far as the rename, or did not. */
  function AfterWrite(codec: Codec, content: Option<string>, credID: string, token: string, renamed: bool)
    : Option<string>
  {
    if renamed then Some(codec.marshal(Envelope(credID, token))) else content
  }

  // ----- what a hit means -----

  /** The white space of Unicode. */
  const WHITE_SPACE: set<char> := {
    '\t', '\n', '\U{B}', '\U{C}', '\r', ' ', '\U{85}', '\U{A0}', '\U{1680}',
    '\U{2000}', '\U{2001}', '\U{2002}', '\U{2003}', '\U{2004}', '\U{2005}', '\U{2006}', '\U{2007}', '\U{2008}',
    '\U{2009}', '\U{200A}', '\U{2028}', '\U{2029}', '\U{202F}', '\U{205F}', '\U{3000}'
  }

  lemma SpaceIsWhiteSpace(c: char)
    ensures IsSpace(c) <==> c in WHITE_SPACE
  {
  }

  predicate AllWhite(s: string) {
    forall i :: 0 <= i < |s| ==> s[i] in WHITE_SPACE
  }

  predicate Trimmed(t: string) {
    t != "" ==> t[0] !in WHITE_SPACE && t[|t| - 1] !in WHITE_SPACE
  }

  predicate IsPadded(raw: string, lead: string, token: string, trail: string) {
    raw == lead + token + trail && AllWhite(lead) && AllWhite(trail)
  }

  /** The token without the white space around it. */
  ghost predicate TrimmedFrom(token: string, raw: string) {
    Trimmed(token) && exists lead, trail :: IsPadded(raw, lead, token, trail)
  }

  lemma {:induction false} TrimSpaceTrims(raw: string) returns (lead: string, trail: string)
    ensures Trimmed(TrimSpace(raw)) && IsPadded(raw, lead, TrimSpace(raw), trail)
    decreases |raw|
  {
    lead, trail := "", "";
    if raw != "" {
      var n := |raw| - 1;
      SpaceIsWhiteSpace(raw[0]);
      SpaceIsWhiteSpace(raw[n]);
      if IsSpace(raw[0]) {
        lead, trail := TrimSpaceTrims(raw[1..]);
        lead := [raw[0]] + lead;
      } else if IsSpace(raw[n]) {
        lead, trail := TrimSpaceTrims(raw[..n]);
        trail := trail + [raw[n]];
      }
    }
  }

  lemma {:induction false} PaddingIsTrimmed(raw: string, lead: string, token: string, trail: string)
    requires Trimmed(token) && token != "" && IsPadded(raw, lead, token, trail)
    ensures TrimSpace(raw) == token
    decreases |raw|
  {
    SpaceIsWhiteSpace(raw[0]);
    SpaceIsWhiteSpace(raw[|raw| - 1]);
    if lead != "" {
      assert raw[1..] == lead[1..] + token + trail;
      PaddingIsTrimmed(raw[1..], lead[1..], token, trail);
    } else if trail != "" {
      var n := |trail| - 1;
      assert raw[..|raw| - 1] == lead + token + trail[..n];
      PaddingIsTrimmed(raw[..|raw| - 1], lead, token, trail[..n]);
    }
  }

  lemma TrimSpaceIff(raw: string, token: string)
    requires token != ""
    ensures TrimSpace(raw) == token <==> TrimmedFrom(token, raw)
  {
    if TrimSpace(raw) == token {
      var lead, trail := TrimSpaceTrims(raw);
    }
    if TrimmedFrom(token, raw) {
      var lead, trail :| IsPadded(raw, lead, token, trail);
      PaddingIsTrimmed(raw, lead, token, trail);
    }
  }

  /** A token of three parts between dots whose middle one carries these claims. */
  ghost predicate Carries(codec: Codec, token: string, claims: TokenClaims) {
    exists header, body, signature ::
      && InThree(token, '.', header, body, signature)
      && codec.base64(body).Some? && codec.claims(codec.base64(body).value) == Some(claims)
  }

  /** The audience claim is this audience or an array with it in it; null stands for the empty string. */
  predicate IsAudience(j: Json, audience: string) {
    j == Str(audience) || (j == Null && audience == "")
  }

  ghost predicate ListsAudience(claims: TokenClaims, audience: string) {
    && claims.aud.Some?
    && (|| IsAudience(claims.aud.value, audience)
        || (&& claims.aud.value.Arr?
            && (forall j :: j in claims.aud.value.elements ==> j.Str? || j.Null?)
            && exists j :: j in claims.aud.value.elements && IsAudience(j, audience)))
  }

  /** A token that may be used now: its expiry claim, in seconds since the epoch, lies ahead. `until` is that
      instant in nanoseconds. */
  ghost predicate Unexpired(codec: Codec, token: string, audience: string, now: int, until: int) {
    exists claims ::
      && Carries(codec, token, claims) && claims.exp != 0 && ListsAudience(claims, audience)
      && now < claims.exp * 1_000_000_000 && until == claims.exp * 1_000_000_000
  }

  lemma CarriedClaims(codec: Codec, token: string, claims: TokenClaims)
    ensures Carries(codec, token, claims) <==>
              && |Split(token, '.')| == 3 && codec.base64(Split(token, '.')[1]).Some?
              && codec.claims(codec.base64(Split(token, '.')[1]).value) == Some(claims)
  {
    if |Split(token, '.')| == 3 {
      ThreeFields(token, '.');
    }
    if Carries(codec, token, claims) {
      var header, body, signature :|
        && InThree(token, '.', header, body, signature)
        && codec.base64(body).Some? && codec.claims(codec.base64(body).value) == Some(claims);
      SplitInThree(token, '.', header, body, signature);
    }
  }

  lemma ParsedAudience(claims: TokenClaims, audience: string)
    ensures audience in ParseAudience(claims.aud) <==> ListsAudience(claims, audience)
  {
    if claims.aud.Some? && claims.aud.value.Arr? {
      var elements, parsed := claims.aud.value.elements, ParseAudience(claims.aud);
      if j :| j in elements && IsAudience(j, audience) && ListsAudience(claims, audience) {
        var i :| 0 <= i < |elements| && elements[i] == j;
        assert parsed[i] == audience;
      }
      if i :| 0 <= i < |parsed| && parsed[i] == audience {
        assert elements[i] in elements && IsAudience(elements[i], audience);
      }
    }
  }

  lemma UsableIsUnexpired(codec: Codec, token: string, audience: string, now: int)
    requires Usable(codec, token, audience, now)
    ensures Unexpired(codec, token, audience, now, ExpiryTime(UnverifiedExpiryAudience(codec, token).value.0))
  {
    var claims := codec.claims(codec.base64(Split(token, '.')[1]).value).value;
    CarriedClaims(codec, token, claims);
    ParsedAudience(claims, audience);
  }

  lemma UnexpiredIsUsable(codec: Codec, token: string, audience: string, now: int, until: int)
    requires token != "" && Unexpired(codec, token, audience, now, until)
    ensures Usable(codec, token, audience, now) && until == ExpiryTime(UnverifiedExpiryAudience(codec, token).value.0)
  {
    var claims :|
      && Carries(codec, token, claims) && claims.exp != 0 && ListsAudience(claims, audience)
      && now < claims.exp * 1_000_000_000 && until == claims.exp * 1_000_000_000;
    CarriedClaims(codec, token, claims);
    ParsedAudience(claims, audience);
  }

  /** The library's own judgement of a token says just that. */
  lemma UsableIff(codec: Codec, token: string, audience: string, now: int, until: int)
    requires token != ""
    ensures Unexpired(codec, token, audience, now, until) <==>
              && Usable(codec, token, audience, now)
              && until == ExpiryTime(UnverifiedExpiryAudience(codec, token).value.0)
  {
    if Usable(codec, token, audience, now) {
      UsableIsUnexpired(codec, token, audience, now);
    }
    if Unexpired(codec, token, audience, now, until) {
      UnexpiredIsUsable(codec, token, audience, now, until);
    }
  }

  /** What an entry must hold for these credentials to get this token out of it, and until when. */
  ghost predicate Yields(codec: Codec, e: CacheEntry, credID: string, audience: string, now: int, token: string,
                         until: int)
  {
    && e.version == "awsauth.cache.v2" && e.credential == credID
    && token != "" && TrimmedFrom(token, e.token)
    && Unexpired(codec, token, audience, now, until)
  }

  /** MAIN: a cache file is a hit if and only if it decodes to an entry of the current format and of these
      credentials whose trimmed token lists the audience and has not expired; the token and its expiry are then
      what is handed out. */
  lemma HitMeans(codec: Codec, content: Option<string>, credID: string, audience: string, now: int,
                 token: string, until: int)
    ensures Lookup(codec, content, credID, audience, now) == Some((token, until)) <==>
              && content.Some? && codec.unmarshal(content.value).Some?
              && Yields(codec, codec.unmarshal(content.value).value, credID, audience, now, token, until)
  {
    if content.Some? && codec.unmarshal(content.value).Some? {
      var e := codec.unmarshal(content.value).value;
      if token != "" {
        TrimSpaceIff(e.token, token);
        UsableIff(codec, token, audience, now, until);
      }
    }
  }

  lemma MissMeans(codec: Codec, content: Option<string>, credID: string, audience: string, now: int)
    requires content.Some? && codec.unmarshal(content.value).Some?
    ensures Lookup(codec, content, credID, audience, now).None? <==>
            forall token, until ::
              !Yields(codec, codec.unmarshal(content.value).value, credID, audience, now, token, until)
  {
    var r := Lookup(codec, content, credID, audience, now);
    if r.Some? {
      HitMeans(codec, content, credID, audience, now, r.value.0, r.value.1);
    } else {
      forall token, until
        ensures !Yields(codec, codec.unmarshal(content.value).value, credID, audience, now, token, until)
      {
        HitMeans(codec, content, credID, audience, now, token, until);
      }
    }
  }

  /** MAIN: what a write stores is read back, trimmed, under the credential that stored it and no other, for as
      long as it has not expired; a write that fails leaves what was there. */
  lemma StoredTokenIsReadBack(codec: Codec, content: Option<string>, stored: string, raw: string, credID: string,
                              audience: string, now: int, token: string, until: int)
    requires FaithfulCodec(codec)
    ensures var after := AfterWrite(codec, content, stored, raw, true);
            Lookup(codec, after, credID, audience, now) == Some((token, until)) <==>
              && stored == credID && token != "" && TrimmedFrom(token, raw)
              && Unexpired(codec, token, audience, now, until)
    ensures AfterWrite(codec, content, stored, raw, false) == content
  {
    EnvelopeUnmarshals(codec, Envelope(stored, raw));
    HitMeans(codec, AfterWrite(codec, content, stored, raw, true), credID, audience, now, token, until);
  }

  // ----- the two formats are disjoint -----

  lemma VersionIsPlain(v: string)
    requires v == CACHE_VERSION
    ensures Escape(v) == v
  {
    forall c | c in v ensures IsPlain(c) {
      var i :| 0 <= i < |v| && v[i] == c;
      assert c == '.' || 'a' <= c <= 'z' || c == '2';
    }
    EscapePlain(v);
  }

  lemma EnvelopeStart(e: CacheEntry) returns (head: string, rest: string)
    requires e.version == CACHE_VERSION
    ensures Marshal(e) == head + (e.version + rest) && '.' !in head
  {
    VersionIsPlain(e.version);
    var more := "," + MemberText("credential", e.credential, "," + MemberText("token", e.token, "}"));
    head, rest := "{\"v\":\"", "\"" + more;
    HeadRegrouped(e.version + rest);
    HeadHasNoDot(head);
  }

  lemma HeadRegrouped(t: string)
    ensures "{" + ("\"" + ("v" + ("\":\"" + t))) == "{\"v\":\"" + t
  {
  }

  lemma HeadHasNoDot(head: string)
    requires head == "{\"v\":\""
    ensures '.' !in head
  {
    forall i | 0 <= i < |head| ensures head[i] != '.' {
      assert head[i] in ['{', '"', 'v', ':'];
    }
  }

  /** MAIN: read as a bare token, every envelope is refused, whatever token it carries: it splits into
      more than three parts, or its middle part is the undecodable "cache". */
  lemma EnvelopeIsNoToken(codec: Codec, credID: string, token: string)
    requires FaithfulCodec(codec)
    ensures UnverifiedExpiryAudience(codec, codec.marshal(Envelope(credID, token))).None?
  {
    var e := Envelope(credID, token);
    var text := codec.marshal(e);
    var head, rest := EnvelopeStart(e);
    VersionSecondPart(head, e.version, rest);
    NoTokenWithUndecodablePart(codec, text);
  }

  lemma VersionSecondPart(head: string, v: string, rest: string)
    requires '.' !in head && v == CACHE_VERSION
    ensures |Split(head + (v + rest), '.')| >= 2
    ensures Split(head + (v + rest), '.')[1] == "cache"
  {
    var pieces, tail := ["awsauth", "cache"], ".v2" + rest;
    assert pieces[1..] == ["cache"];
    assert Join(pieces, ".") == "awsauth.cache";
    assert v == "awsauth.cache" + ".v2";
    assert v + rest == Join(pieces, ".") + tail;
    SplitPieces(pieces, tail, '.');
    SplitPrepend(head, v + rest, '.');
  }

  lemma NoTokenWithUndecodablePart(codec: Codec, text: string)
    requires FaithfulCodec(codec)
    requires |Split(text, '.')| >= 2 && Split(text, '.')[1] == "cache"
    ensures UnverifiedExpiryAudience(codec, text).None?
  {
    assert |"cache"| % 4 == 1;
  }

  predicate IsBase64UrlChar(c: char) {
    'A' <= c <= 'Z' || 'a' <= c <= 'z' || '0' <= c <= '9' || c == '-' || c == '_'
  }

  /** Three base64url parts between dots (RFC 7515, section 7.1). */
  predicate IsCompactJwt(t: string) {
    |Split(t, '.')| == 3 && forall i :: 0 <= i < |t| ==> t[i] == '.' || IsBase64UrlChar(t[i])
  }

  /** No member is taken from an object without members, so a version needs at least one. */
  lemma VersionNeedsMembers(t: string)
    requires Unmarshal(t).Some? && Unmarshal(t).value.version != ""
    ensures '{' in t && '"' in t
  {
    MembersNeedBraceAndQuote(t);
  }

  /** MAIN: read as an envelope, every bare compact token is a miss: a text decodes to an entry with a version
      only if it has a brace and a quote in it, and a compact token has neither. */
  lemma TokenIsNoEnvelope(codec: Codec, t: string, credID: string, audience: string, now: int)
    requires FaithfulCodec(codec) && IsCompactJwt(t)
    ensures ReadEntry(codec, t, credID, audience, now).None?
  {
    if codec.unmarshal(t).Some? && codec.unmarshal(t).value.version != "" {
      VersionNeedsMembers(t);
    }
    NoBraceInToken(t);
  }

  lemma NoBraceInToken(t: string)
    requires IsCompactJwt(t)
    ensures '{' !in t
  {
    forall i | 0 <= i < |t| ensures t[i] != '{' {
      assert t[i] == '.' || IsBase64UrlChar(t[i]);
    }
  }
}
