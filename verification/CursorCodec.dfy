/** The opaque cursors of the paged endpoints: JSON in unpadded base64url, section 5 of
    RFC 4648. */
module CursorCodec {
  import opened Basics

  type Byte = x: nat | x < 256

  /** A cursor is rejected as invalid, or the decoder raises something nobody handles. */
  datatype Decoded<+T> = Ok(value: T) | Invalid | Crashed

  // ---------------------------------------------------------------------------- base64

  function CharOf(v: nat): char
    requires v < 64
  {
    if v < 26 then 'A' + v as char
    else if v < 52 then 'a' + (v - 26) as char
    else if v < 62 then '0' + (v - 52) as char
    else if v == 62 then '-' else '_'
  }

  /** The decoder maps '-' and '_' onto '+' and '/', and takes those themselves as well. */
  function ValueOf(c: char): (v: Option<nat>)
    ensures v.Some? ==> v.value < 64
  {
    if 'A' <= c <= 'Z' then Some(c as nat - 'A' as nat)
    else if 'a' <= c <= 'z' then Some(c as nat - 'a' as nat + 26)
    else if '0' <= c <= '9' then Some(c as nat - '0' as nat + 52)
    else if c == '-' || c == '+' then Some(62)
    else if c == '_' || c == '/' then Some(63)
    else None
  }

  lemma ValueOfChar(v: nat)
    requires v < 64
    ensures ValueOf(CharOf(v)) == Some(v) && CharOf(v) != '=' && CharOf(v) as nat < 128
  {
  }

  function Quad(a: Byte, b: Byte, c: Byte): string
  {
    [CharOf(a / 4), CharOf(a % 4 * 16 + b / 16), CharOf(b % 16 * 4 + c / 64), CharOf(c % 64)]
  }

  function Padded(bytes: seq<Byte>): string
  {
    if bytes == [] then []
    else if |bytes| == 1 then [CharOf(bytes[0] / 4), CharOf(bytes[0] % 4 * 16), '=', '=']
    else if |bytes| == 2 then
      [CharOf(bytes[0] / 4), CharOf(bytes[0] % 4 * 16 + bytes[1] / 16), CharOf(bytes[1] % 16 * 4), '=']
    else Quad(bytes[0], bytes[1], bytes[2]) + Padded(bytes[3..])
  }

  function RStrip(s: string): string
  {
    if s != [] && s[|s| - 1] == '=' then RStrip(s[..|s| - 1]) else s
  }

  function Repad(s: string): string { s + seq(-|s| % 4, i => '=') }

  /** One quad of the strict decoder; padding is taken in the last one only. */
  function DecodeQuad(s: string, last: bool): Option<seq<Byte>>
    requires |s| == 4
  {
    var a, b, c, d := ValueOf(s[0]), ValueOf(s[1]), ValueOf(s[2]), ValueOf(s[3]);
    if a == None || b == None then None
    else if last && s[2] == '=' && s[3] == '=' then Some([a.value * 4 + b.value / 16])
    else if c == None then None
    else if last && s[3] == '=' then Some([a.value * 4 + b.value / 16, b.value % 16 * 16 + c.value / 4])
    else if d == None then None
    else Some([a.value * 4 + b.value / 16, b.value % 16 * 16 + c.value / 4, c.value % 4 * 64 + d.value])
  }

  function DecodePadded(s: string): Option<seq<Byte>>
  {
    if s == [] then Some([])
    else if |s| < 4 then None
    else
      var head, rest := DecodeQuad(s[..4], |s| == 4), DecodePadded(s[4..]);
      if head == None || rest == None then None else Some(head.value + rest.value)
  }

  function Encode(bytes: seq<Byte>): string { RStrip(Padded(bytes)) }

  predicate Ascii(s: string) { forall i | 0 <= i < |s| :: s[i] as nat < 128 }

  function Decode(cursor: string): Decoded<seq<Byte>>
  {
    if !Ascii(cursor) then Crashed
    else match DecodePadded(Repad(cursor)) case Some(bytes) => Ok(bytes) case None => Invalid
  }

  // ------------------------------------------------------------- base64 round trip

  /** The sextets of three bytes give the bytes back. */
  lemma FirstByte(a: Byte, b: Byte)
    ensures a / 4 < 64 && a % 4 * 16 + b / 16 < 64
    ensures a / 4 * 4 + (a % 4 * 16 + b / 16) / 16 == a
  {
  }

  lemma SecondByte(a: Byte, b: Byte, c: Byte)
    ensures a % 4 * 16 + b / 16 < 64 && b % 16 * 4 + c / 64 < 64
    ensures (a % 4 * 16 + b / 16) % 16 * 16 + (b % 16 * 4 + c / 64) / 4 == b
  {
    assert (a % 4 * 16 + b / 16) % 16 == b / 16;
    assert (b % 16 * 4 + c / 64) / 4 == b % 16;
  }

  lemma ThirdByte(b: Byte, c: Byte)
    ensures b % 16 * 4 + c / 64 < 64 && c % 64 < 64
    ensures (b % 16 * 4 + c / 64) % 4 * 64 + c % 64 == c
  {
    assert (b % 16 * 4 + c / 64) % 4 == c / 64;
  }

  lemma QuadDecodes(a: Byte, b: Byte, c: Byte, last: bool)
    ensures DecodeQuad(Quad(a, b, c), last) == Some([a, b, c])
    ensures Ascii(Quad(a, b, c)) && Quad(a, b, c)[3] != '='
  {
    var v0, v1, v2, v3 := a / 4, a % 4 * 16 + b / 16, b % 16 * 4 + c / 64, c % 64;
    FirstByte(a, b);
    SecondByte(a, b, c);
    ThirdByte(b, c);
    FourChars(v0, v1, v2, v3, last);
  }

  lemma FourChars(v0: nat, v1: nat, v2: nat, v3: nat, last: bool)
    requires v0 < 64 && v1 < 64 && v2 < 64 && v3 < 64
    requires v0 * 4 + v1 / 16 < 256 && v1 % 16 * 16 + v2 / 4 < 256 && v2 % 4 * 64 + v3 < 256
    ensures var text := [CharOf(v0), CharOf(v1), CharOf(v2), CharOf(v3)];
            && DecodeQuad(text, last) == Some([v0 * 4 + v1 / 16, v1 % 16 * 16 + v2 / 4, v2 % 4 * 64 + v3])
            && Ascii(text) && text[3] != '='
  {
    ValueOfChar(v0);
    ValueOfChar(v1);
    ValueOfChar(v2);
    ValueOfChar(v3);
  }

  /** What the base64 text of some bytes is good for. */
  predicate Sound(text: string, bytes: seq<Byte>)
  {
    |text| % 4 == 0 && Ascii(text) && DecodePadded(text) == Some(bytes) && Repad(RStrip(text)) == text
  }

  lemma OneQuad(text: string, bytes: seq<Byte>)
    requires |text| == 4 && DecodeQuad(text, true) == Some(bytes)
    ensures DecodePadded(text) == Some(bytes)
  {
    assert text[..4] == text && text[4..] == [];
    assert DecodePadded(text[4..]) == Some([]);
    assert bytes + [] == bytes;
  }

  lemma LastOne(a: Byte)
    ensures Sound(Padded([a]), [a])
  {
    var text := Padded([a]);
    ValueOfChar(a / 4);
    ValueOfChar(a % 4 * 16);
    assert DecodeQuad(text, true) == Some([a]);
    OneQuad(text, [a]);
    assert text[..3][..2] == text[..2] && RStrip(text[..2]) == text[..2];
  }

  lemma LastTwo(a: Byte, b: Byte)
    ensures Sound(Padded([a, b]), [a, b])
  {
    var v0, v1, v2 := a / 4, a % 4 * 16 + b / 16, b % 16 * 4;
    FirstByte(a, b);
    SecondByte(a, b, 0);
    ThreeChars(v0, v1, v2, [a, b]);
    assert Padded([a, b]) == [CharOf(v0), CharOf(v1), CharOf(v2), '='];
  }

  lemma ThreeChars(v0: nat, v1: nat, v2: nat, bytes: seq<Byte>)
    requires v0 < 64 && v1 < 64 && v2 < 64 && |bytes| == 2
    requires v0 * 4 + v1 / 16 == bytes[0] && v1 % 16 * 16 + v2 / 4 == bytes[1]
    ensures Sound([CharOf(v0), CharOf(v1), CharOf(v2), '='], bytes)
  {
    var text := [CharOf(v0), CharOf(v1), CharOf(v2), '='];
    ValueOfChar(v0);
    ValueOfChar(v1);
    ValueOfChar(v2);
    assert bytes == [bytes[0], bytes[1]];
    assert DecodeQuad(text, true) == Some(bytes);
    OneQuad(text, bytes);
    assert RStrip(text[..3]) == text[..3];
  }

  lemma QuadBefore(quad: string, head: seq<Byte>, text: string, bytes: seq<Byte>)
    requires |quad| == 4 && DecodeQuad(quad, text == []) == Some(head) && Ascii(quad) && quad[3] != '='
    requires Sound(text, bytes)
    ensures Sound(quad + text, head + bytes)
  {
    QuadThen(quad, text, head, bytes);
    RepadQuad(quad, text);
  }

  lemma RepadQuad(quad: string, text: string)
    requires |quad| == 4 && quad[3] != '=' && Repad(RStrip(text)) == text && |text| % 4 == 0
    ensures Repad(RStrip(quad + text)) == quad + text && |quad + text| % 4 == 0
  {
    StripBehind(quad, text);
    RepadBehind(quad, RStrip(text));
  }

  lemma QuadThen(quad: string, text: string, head: seq<Byte>, bytes: seq<Byte>)
    requires |quad| == 4 && DecodeQuad(quad, text == []) == Some(head) && DecodePadded(text) == Some(bytes)
    requires Ascii(quad) && Ascii(text)
    ensures DecodePadded(quad + text) == Some(head + bytes) && Ascii(quad + text)
  {
    assert (quad + text)[..4] == quad && (quad + text)[4..] == text;
  }

  lemma RepadBehind(quad: string, s: string)
    requires |quad| == 4
    ensures Repad(quad + s) == quad + Repad(s)
  {
    assert -|quad + s| % 4 == -|s| % 4;
  }

  /** The text decodes to its bytes, and the padding the decoder adds is the padding the
      encoder took away. */
  lemma {:induction false} PaddedIsSound(bytes: seq<Byte>)
    ensures Sound(Padded(bytes), bytes)
  {
    if |bytes| == 1 {
      assert bytes == [bytes[0]];
      LastOne(bytes[0]);
    } else if |bytes| == 2 {
      assert bytes == [bytes[0], bytes[1]];
      LastTwo(bytes[0], bytes[1]);
    } else if |bytes| >= 3 {
      PaddedIsSound(bytes[3..]);
      QuadDecodes(bytes[0], bytes[1], bytes[2], Padded(bytes[3..]) == []);
      QuadBefore(Quad(bytes[0], bytes[1], bytes[2]), [bytes[0], bytes[1], bytes[2]], Padded(bytes[3..]), bytes[3..]);
      FirstThree(bytes);
    }
  }

  lemma FirstThree(bytes: seq<Byte>)
    requires |bytes| >= 3
    ensures [bytes[0], bytes[1], bytes[2]] + bytes[3..] == bytes
  {
    assert bytes[..3] == [bytes[0], bytes[1], bytes[2]];
    assert bytes[..3] + bytes[3..] == bytes;
  }

  lemma {:induction false} StripBehind(quad: string, rest: string)
    requires quad != [] && quad[|quad| - 1] != '='
    ensures RStrip(quad + rest) == quad + RStrip(rest)
  {
    if rest == [] {
      assert quad + rest == quad;
    } else if rest[|rest| - 1] == '=' {
      StripBehind(quad, rest[..|rest| - 1]);
      assert (quad + rest)[..|quad + rest| - 1] == quad + rest[..|rest| - 1];
    }
  }

  lemma {:induction false} StripKeepsAscii(s: string)
    requires Ascii(s)
    ensures Ascii(RStrip(s))
  {
    if s != [] && s[|s| - 1] == '=' { StripKeepsAscii(s[..|s| - 1]); }
  }

  /** Every byte string comes back from its unpadded encoding. */
  lemma Base64RoundTrip(bytes: seq<Byte>)
    ensures Decode(Encode(bytes)) == Ok(bytes)
  {
    PaddedIsSound(bytes);
    StripKeepsAscii(Padded(bytes));
  }

  /** The alphabet of section 5 of RFC 4648: capitals, small letters, digits, '-' and '_'. */
  lemma AlphabetIsTheStandard(v: nat)
    requires v < 64
    ensures CharOf(0) == 'A' && CharOf(25) == 'Z' && CharOf(26) == 'a' && CharOf(51) == 'z' && CharOf(52) == '0' && CharOf(61) == '9'
    ensures CharOf(62) == '-' && CharOf(63) == '_'
    ensures v < 61 && v != 25 && v != 51 ==> CharOf(v + 1) as int == CharOf(v) as int + 1
  {
  }

  /** Test vectors of section 10 of RFC 4648, without their padding. */
  lemma EncodesTheVectors()
    ensures Encode([102]) == "Zg" && Encode([102, 111]) == "Zm8" && Encode([102, 111, 111]) == "Zm9v"
  {
    assert [102, 111, 111][3..] == [];
    assert Padded([102]) == "Zg==" && Padded([102, 111]) == "Zm8=" && Padded([102, 111, 111]) == "Zm9v";
    assert "Zg=="[..3] == "Zg=" && "Zg="[..2] == "Zg" && "Zm8="[..3] == "Zm8";
  }

  /** Whole quads of alphabet characters, the last with at most two of padding. */
  predicate WellPadded(s: string)
  {
    && |s| % 4 == 0
    && (forall i | 0 <= i < |s| - 2 :: ValueOf(s[i]).Some?)
    && (s != [] ==> EndsWell(s[|s| - 2], s[|s| - 1]))
  }

  predicate EndsWell(c: char, d: char)
  {
    if c == '=' then d == '=' else ValueOf(c).Some? && (d == '=' || ValueOf(d).Some?)
  }

  lemma {:induction false} DecodesIffWellPadded(s: string)
    ensures DecodePadded(s).Some? <==> WellPadded(s)
  {
    if |s| >= 4 {
      var head, rest := s[..4], s[4..];
      DecodesIffWellPadded(rest);
      if rest != [] {
        QuadThenRest(s);
      }
    }
  }

  lemma QuadThenRest(s: string)
    requires |s| > 4
    ensures WellPadded(s) <==> WellPadded(s[4..]) && DecodeQuad(s[..4], false).Some?
  {
    var rest := s[4..];
    if |s| % 4 == 0 {
      assert rest[|rest| - 2] == s[|s| - 2] && rest[|rest| - 1] == s[|s| - 1];
      assert forall i | 4 <= i < |s| :: s[i] == rest[i - 4];
      assert forall i | 0 <= i < |rest| :: rest[i] == s[i + 4];
    }
  }

  /** Which text the decoder takes: ASCII text that is well padded once repadded. */
  lemma AcceptedIff(text: string)
    ensures Decode(text).Ok? <==> Ascii(text) && WellPadded(Repad(text))
    ensures Decode(text).Crashed? <==> !Ascii(text)
  {
    DecodesIffWellPadded(Repad(text));
  }

  // ---------------------------------------------------------------------------- JSON

  datatype Json =
    | Null
    | Bool(flag: bool)
    | Int(whole: int)
    | Float(number: real)
    | Str(text: string)
    | List(items: seq<Json>)
    | Obj(fields: map<string, Json>)

  /** The JSON library; `loads` yields nothing for bytes that are not UTF-8 or not JSON. */
  datatype Codec = Codec(dumps: Json -> seq<Byte>, loads: seq<Byte> -> Option<Json>)

  ghost predicate Reads(codec: Codec, value: Json) { codec.loads(codec.dumps(value)) == Some(value) }

  /** Comparison with the integer 1 as the source language compares. */
  predicate EqualsOne(v: Json) { v == Int(1) || v == Bool(true) || v == Float(1.0) }

  // --------------------------------------------------------------------------- cursors

  predicate LowerHex(c: char) { '0' <= c <= '9' || 'a' <= c <= 'f' }

  predicate IsSubmissionId(s: string) { |s| == 32 && forall i | 0 <= i < 32 :: LowerHex(s[i]) }

  datatype HistoryPosition = Start | After(created: string, id: string)
  datatype LeaderboardPosition = Position(asOf: string, rank: nat)

  function HistoryPayload(created: string, id: string): Json
  {
    Obj(map["created_at" := Str(created), "submission_id" := Str(id), "version" := Int(1)])
  }

  function HistoryCursor(codec: Codec, created: string, id: string): string
  {
    Encode(codec.dumps(HistoryPayload(created, id)))
  }

  function DecodeHistoryCursor(codec: Codec, isUtc: string -> bool, cursor: Option<string>): (r: Decoded<HistoryPosition>)
    ensures r.Crashed? <==> cursor.Some? && !Ascii(cursor.value)
    ensures r.Ok? && r.value.After? ==> isUtc(r.value.created) && IsSubmissionId(r.value.id)
  {
    if cursor == None then Ok(Start) else
    match Decode(cursor.value)
    case Crashed => Crashed
    case Invalid => Invalid
    case Ok(bytes) =>
      var value := codec.loads(bytes);
      if value == None || !value.value.Obj? then Invalid else
      var fields := value.value.fields;
      if fields.Keys != {"created_at", "submission_id", "version"} then Invalid
      else if !EqualsOne(fields["version"]) || !fields["created_at"].Str? || !isUtc(fields["created_at"].text)
              || !fields["submission_id"].Str? || !IsSubmissionId(fields["submission_id"].text) then Invalid
      else Ok(After(fields["created_at"].text, fields["submission_id"].text))
  }

  function LeaderboardPayload(asOf: string, identity: string, rank: int): Json
  {
    Obj(map["as_of" := Str(asOf), "evaluation_identity_sha256" := Str(identity), "rank" := Int(rank), "version" := Int(1)])
  }

  function LeaderboardCursor(codec: Codec, asOf: string, identity: string, rank: int): string
  {
    Encode(codec.dumps(LeaderboardPayload(asOf, identity, rank)))
  }

  /** `now` is what the clock says; a request without a cursor starts there. */
  function DecodeLeaderboardCursor(codec: Codec, isUtc: string -> bool, now: string, identity: string, cursor: Option<string>)
    : (r: Decoded<LeaderboardPosition>)
    ensures r.Crashed? <==> cursor.Some? && !Ascii(cursor.value)
    ensures r.Ok? && cursor.Some? ==> isUtc(r.value.asOf) && r.value.rank > 0
  {
    if cursor == None then Ok(Position(now, 0)) else
    match Decode(cursor.value)
    case Crashed => Crashed
    case Invalid => Invalid
    case Ok(bytes) =>
      var value := codec.loads(bytes);
      if value == None || !value.value.Obj? then Invalid else
      var fields := value.value.fields;
      if fields.Keys != {"as_of", "evaluation_identity_sha256", "rank", "version"} then Invalid
      else if !EqualsOne(fields["version"]) || fields["evaluation_identity_sha256"] != Str(identity)
              || !fields["as_of"].Str? || !isUtc(fields["as_of"].text)
              || !fields["rank"].Int? || fields["rank"].whole <= 0 then Invalid
      else Ok(Position(fields["as_of"].text, fields["rank"].whole))
  }

  /** A history cursor gives back the fields it was made of, exactly when they are ones the
      decoder takes; it never crashes the decoder. */
  lemma HistoryCursorRoundTrip(codec: Codec, isUtc: string -> bool, created: string, id: string)
    requires Reads(codec, HistoryPayload(created, id))
    ensures DecodeHistoryCursor(codec, isUtc, Some(HistoryCursor(codec, created, id)))
         == if isUtc(created) && IsSubmissionId(id) then Ok(After(created, id)) else Invalid
  {
    Base64RoundTrip(codec.dumps(HistoryPayload(created, id)));
    assert HistoryPayload(created, id).fields.Keys == {"created_at", "submission_id", "version"};
  }

  /** A leaderboard cursor gives back its instant and rank, exactly on its own leaderboard. */
  lemma LeaderboardCursorRoundTrip(codec: Codec, isUtc: string -> bool, now: string, asOf: string, identity: string, rank: int, path: string)
    requires Reads(codec, LeaderboardPayload(asOf, identity, rank))
    ensures DecodeLeaderboardCursor(codec, isUtc, now, path, Some(LeaderboardCursor(codec, asOf, identity, rank)))
         == if isUtc(asOf) && rank > 0 && identity == path then Ok(Position(asOf, rank)) else Invalid
  {
    Base64RoundTrip(codec.dumps(LeaderboardPayload(asOf, identity, rank)));
    assert LeaderboardPayload(asOf, identity, rank).fields.Keys == {"as_of", "evaluation_identity_sha256", "rank", "version"};
  }

  /** The bytes a text stands for hold this JSON value. */
  predicate Holds(codec: Codec, text: string, value: Json)
  {
    Ascii(text) && DecodePadded(Repad(text)).Some? && codec.loads(DecodePadded(Repad(text)).value) == Some(value)
  }

  function HistoryFields(created: string, id: string, version: Json): map<string, Json>
  {
    map["created_at" := Str(created), "submission_id" := Str(id), "version" := version]
  }

  lemma AcceptedHolds(codec: Codec, isUtc: string -> bool, text: string, created: string, id: string) returns (version: Json)
    requires DecodeHistoryCursor(codec, isUtc, Some(text)) == Ok(After(created, id))
    ensures EqualsOne(version) && Holds(codec, text, Obj(HistoryFields(created, id, version)))
  {
    var fields := codec.loads(DecodePadded(Repad(text)).value).value.fields;
    version := fields["version"];
    assert fields == HistoryFields(created, id, version);
  }

  lemma HeldIsAccepted(codec: Codec, isUtc: string -> bool, text: string, created: string, id: string, version: Json)
    requires isUtc(created) && IsSubmissionId(id) && EqualsOne(version)
    requires Holds(codec, text, Obj(HistoryFields(created, id, version)))
    ensures DecodeHistoryCursor(codec, isUtc, Some(text)) == Ok(After(created, id))
  {
    assert HistoryFields(created, id, version).Keys == {"created_at", "submission_id", "version"};
  }

  /** A text is accepted as a history cursor exactly when it holds an object with these three
      fields and no other, whose version equals 1, and is then read as its fields. */
  lemma HistoryCursorAcceptedIff(codec: Codec, isUtc: string -> bool, text: string, created: string, id: string)
    ensures DecodeHistoryCursor(codec, isUtc, Some(text)) == Ok(After(created, id))
       <==> isUtc(created) && IsSubmissionId(id)
            && exists version | EqualsOne(version) :: Holds(codec, text, Obj(HistoryFields(created, id, version)))
  {
    if DecodeHistoryCursor(codec, isUtc, Some(text)) == Ok(After(created, id)) {
      var version := AcceptedHolds(codec, isUtc, text, created, id);
    } else if isUtc(created) && IsSubmissionId(id) {
      forall version | EqualsOne(version) ensures !Holds(codec, text, Obj(HistoryFields(created, id, version))) {
        if Holds(codec, text, Obj(HistoryFields(created, id, version))) {
          HeldIsAccepted(codec, isUtc, text, created, id, version);
        }
      }
    }
  }

  /** A version of true or 1.0 is as good as 1, and no other value is. */
  lemma VersionsThatEqualOne(codec: Codec, isUtc: string -> bool, text: string, created: string, id: string, version: Json)
    requires isUtc(created) && IsSubmissionId(id) && Holds(codec, text, Obj(HistoryFields(created, id, version)))
    ensures DecodeHistoryCursor(codec, isUtc, Some(text)).Ok? <==> version in {Int(1), Bool(true), Float(1.0)}
  {
    assert HistoryFields(created, id, version).Keys == {"created_at", "submission_id", "version"};
  }

  function LeaderboardFields(asOf: string, identity: string, rank: int, version: Json): map<string, Json>
  {
    map["as_of" := Str(asOf), "evaluation_identity_sha256" := Str(identity), "rank" := Int(rank), "version" := version]
  }

  lemma AcceptedPlaceHolds(codec: Codec, isUtc: string -> bool, now: string, path: string, text: string, asOf: string, rank: nat)
    returns (version: Json)
    requires DecodeLeaderboardCursor(codec, isUtc, now, path, Some(text)) == Ok(Position(asOf, rank))
    ensures EqualsOne(version) && Holds(codec, text, Obj(LeaderboardFields(asOf, path, rank, version)))
  {
    var fields := codec.loads(DecodePadded(Repad(text)).value).value.fields;
    version := fields["version"];
    assert fields == LeaderboardFields(asOf, path, rank, version);
  }

  lemma HeldPlaceIsAccepted(codec: Codec, isUtc: string -> bool, now: string, path: string, text: string, asOf: string, rank: nat, version: Json)
    requires isUtc(asOf) && rank > 0 && EqualsOne(version) && Holds(codec, text, Obj(LeaderboardFields(asOf, path, rank, version)))
    ensures DecodeLeaderboardCursor(codec, isUtc, now, path, Some(text)) == Ok(Position(asOf, rank))
  {
    assert LeaderboardFields(asOf, path, rank, version).Keys == {"as_of", "evaluation_identity_sha256", "rank", "version"};
  }

  /** The same for a leaderboard cursor, read on its own leaderboard only. */
  lemma LeaderboardCursorAcceptedIff(codec: Codec, isUtc: string -> bool, now: string, path: string, text: string, asOf: string, rank: nat)
    ensures DecodeLeaderboardCursor(codec, isUtc, now, path, Some(text)) == Ok(Position(asOf, rank))
       <==> isUtc(asOf) && rank > 0
            && exists version | EqualsOne(version) :: Holds(codec, text, Obj(LeaderboardFields(asOf, path, rank, version)))
  {
    if DecodeLeaderboardCursor(codec, isUtc, now, path, Some(text)) == Ok(Position(asOf, rank)) {
      var version := AcceptedPlaceHolds(codec, isUtc, now, path, text, asOf, rank);
    } else if isUtc(asOf) && rank > 0 {
      forall version | EqualsOne(version) ensures !Holds(codec, text, Obj(LeaderboardFields(asOf, path, rank, version))) {
        if Holds(codec, text, Obj(LeaderboardFields(asOf, path, rank, version))) {
          HeldPlaceIsAccepted(codec, isUtc, now, path, text, asOf, rank, version);
        }
      }
    }
  }

  /** Without a cursor a history starts at its top, and a leaderboard before rank 1 as of now. */
  lemma NoCursorStartsAtTop(codec: Codec, isUtc: string -> bool, now: string, path: string)
    ensures DecodeHistoryCursor(codec, isUtc, None) == Ok(Start)
    ensures DecodeLeaderboardCursor(codec, isUtc, now, path, None) == Ok(Position(now, 0))
  {
  }

  /** One character outside ASCII crashes both decoders, whatever the JSON library does. */
  lemma NonAsciiCrashes(codec: Codec, isUtc: string -> bool, now: string, path: string)
    ensures DecodeHistoryCursor(codec, isUtc, Some("\U{00E9}")).Crashed?
    ensures DecodeLeaderboardCursor(codec, isUtc, now, path, Some("\U{00E9}")).Crashed?
  {
    assert "\U{00E9}"[0] as nat == 233;
  }
}
