/** Signed session tokens (backend/app/services/passwords.py): unpadded base64url and a hex signature. */
module SessionToken {
  import opened Common

  type Byte = b: int | 0 <= b < 256
  type Sextet = v: int | 0 <= v < 64

  // ----- base64url, section 5 of RFC 4648 -----

  function Letter(v: Sextet): char
  {
    if v < 26 then (v + 65) as char
    else if v < 52 then (v + 71) as char
    else if v < 62 then (v - 4) as char
    else if v == 62 then '-' else '_'
  }

  /** urlsafe_b64decode maps '-' and '_' onto '+' and '/', and reads those two as well. */
  function ValueOf(c: char): Option<Sextet>
  {
    if 'A' <= c <= 'Z' then Some(c as int - 65)
    else if 'a' <= c <= 'z' then Some(c as int - 71)
    else if '0' <= c <= '9' then Some(c as int + 4)
    else if c == '-' || c == '+' then Some(62)
    else if c == '_' || c == '/' then Some(63)
    else None
  }

  lemma LetterValue(v: Sextet)
    ensures ValueOf(Letter(v)) == Some(v)
    ensures Letter(v) != '=' && Letter(v) != '.' && Letter(v) < '\U{80}'
  {
  }

  /** The four letters of three bytes. */
  function Group(b0: Byte, b1: Byte, b2: Byte): (r: string)
    ensures |r| == 4
  {
    [Letter(b0 / 4), Letter(b0 % 4 * 16 + b1 / 16), Letter(b1 % 16 * 4 + b2 / 64), Letter(b2 % 64)]
  }

  /** One or two last bytes, filled with '='. */
  function EncodeEnd(bytes: seq<Byte>): string
    requires |bytes| < 3
  {
    if bytes == [] then []
    else if |bytes| == 1 then
      var group := Group(bytes[0], 0, 0);
      [group[0], group[1], '=', '=']
    else
      var group := Group(bytes[0], bytes[1], 0);
      [group[0], group[1], group[2], '=']
  }

  /** Three bytes become four letters; a shorter end is filled up. */
  function Encode(bytes: seq<Byte>): string
  {
    if |bytes| < 3 then EncodeEnd(bytes)
    else Group(bytes[0], bytes[1], bytes[2]) + Encode(bytes[3..])
  }

  /** The bits carried over after quad letters of a group of four. */
  predicate Carry(quad: int, left: int)
  {
    (quad == 0 && left == 0) || (quad == 1 && 0 <= left < 64) || (quad == 2 && 0 <= left < 16) ||
    (quad == 3 && 0 <= left < 4)
  }

  function Cons(b: Byte, rest: Option<seq<Byte>>): Option<seq<Byte>>
  {
    if rest.Some? then Some([b] + rest.value) else None
  }

  /** The lenient decoder: letters outside the alphabet are skipped, '=' ends a group it can complete,
      and an incomplete group is an error. */
  function Decode(s: string, quad: int, left: int, pads: nat): Option<seq<Byte>>
    requires Carry(quad, left)
  {
    if s == [] then (if quad == 0 then Some([]) else None)
    else if s[0] == '=' then
      if quad >= 2 && quad + pads + 1 >= 4 then Some([])
      else Decode(s[1..], quad, left, if quad >= 2 then pads + 1 else pads)
    else match ValueOf(s[0])
      case None => Decode(s[1..], quad, left, pads)
      case Some(v) =>
        if quad == 0 then Decode(s[1..], 1, v, 0)
        else if quad == 1 then Cons(left * 4 + v / 16, Decode(s[1..], 2, v % 16, 0))
        else if quad == 2 then Cons(left * 16 + v / 4, Decode(s[1..], 3, v % 4, 0))
        else Cons(left * 64 + v, Decode(s[1..], 0, 0, 0))
  }

  /** s.rstrip("=") */
  function StripPadding(s: string): string
  {
    if s != [] && s[|s| - 1] == '=' then StripPadding(s[..|s| - 1]) else s
  }

  function Padding(n: nat): string
    requires n < 4
  {
    if n == 0 then "" else if n == 1 then "=" else if n == 2 then "==" else "==="
  }

  /** body + "=" * (-len(body) % 4) */
  function Repad(body: string): string
  {
    body + Padding(-|body| % 4)
  }

  predicate Letters(s: string)
  {
    forall c :: c in s ==> c != '=' && c != '.' && c < '\U{80}'
  }

  lemma {:induction false} StripRestores(letters: string, pads: nat)
    requires Letters(letters) && pads < 4
    ensures StripPadding(letters + Padding(pads)) == letters
  {
    var s := letters + Padding(pads);
    if pads == 0 {
      assert s == letters;
      if letters != [] { assert letters[|letters| - 1] in letters; }
    } else {
      assert s[..|s| - 1] == letters + Padding(pads - 1);
      StripRestores(letters, pads - 1);
    }
  }

  /** An encoding is whole groups: letters, then as many '=' as the letters miss to a multiple of four. */
  lemma {:induction false} EncodeShape(bytes: seq<Byte>) returns (letters: string)
    ensures Letters(letters) && Encode(bytes) == Repad(letters)
  {
    if |bytes| < 3 {
      letters := EndShape(bytes);
    } else {
      var group := Group(bytes[0], bytes[1], bytes[2]);
      var _, _, _, _ := Regroup(bytes[0], bytes[1], bytes[2]);
      var rest := EncodeShape(bytes[3..]);
      letters := group + rest;
      GroupBeforePadding(group, rest);
    }
  }

  lemma EndShape(bytes: seq<Byte>) returns (letters: string)
    requires |bytes| < 3
    ensures Letters(letters) && EncodeEnd(bytes) == Repad(letters)
  {
    if bytes == [] {
      letters := [];
    } else if |bytes| == 1 {
      letters := OneByteShape(bytes[0]);
      assert bytes == [bytes[0]];
    } else {
      letters := TwoByteShape(bytes[0], bytes[1]);
      assert bytes == [bytes[0], bytes[1]];
    }
  }

  lemma OneByteShape(b0: Byte) returns (letters: string)
    ensures Letters(letters) && EncodeEnd([b0]) == Repad(letters)
  {
    var v0, v1, _, _ := Regroup(b0, 0, 0);
    LetterValue(v0);
    LetterValue(v1);
    letters := [Letter(v0), Letter(v1)];
    assert EncodeEnd([b0]) == [Letter(v0), Letter(v1), '=', '='];
    assert Repad(letters) == letters + "==";
  }

  lemma TwoByteShape(b0: Byte, b1: Byte) returns (letters: string)
    ensures Letters(letters) && EncodeEnd([b0, b1]) == Repad(letters)
  {
    var v0, v1, v2, _ := Regroup(b0, b1, 0);
    LetterValue(v0);
    LetterValue(v1);
    LetterValue(v2);
    letters := [Letter(v0), Letter(v1), Letter(v2)];
    assert EncodeEnd([b0, b1]) == [Letter(v0), Letter(v1), Letter(v2), '='];
    assert Repad(letters) == letters + "=";
  }

  lemma GroupBeforePadding(group: string, rest: string)
    requires |group| == 4
    ensures group + Repad(rest) == Repad(group + rest)
  {
  }

  /** Undoing the split of three bytes into four sextets. */
  lemma Regroup(b0: Byte, b1: Byte, b2: Byte) returns (v0: Sextet, v1: Sextet, v2: Sextet, v3: Sextet)
    ensures Group(b0, b1, b2) == [Letter(v0), Letter(v1), Letter(v2), Letter(v3)]
    ensures v0 * 4 + v1 / 16 == b0 && v1 % 16 * 16 + v2 / 4 == b1 && v2 % 4 * 64 + v3 == b2
    ensures ValueOf(Letter(v0)) == Some(v0) && ValueOf(Letter(v1)) == Some(v1)
    ensures ValueOf(Letter(v2)) == Some(v2) && ValueOf(Letter(v3)) == Some(v3)
    ensures Letters(Group(b0, b1, b2))
  {
    v0, v1, v2, v3 := b0 / 4, b0 % 4 * 16 + b1 / 16, b1 % 16 * 4 + b2 / 64, b2 % 64;
    LetterValue(v0);
    LetterValue(v1);
    LetterValue(v2);
    LetterValue(v3);
  }

  lemma {:induction false} DecodeEncode(bytes: seq<Byte>)
    ensures Decode(Encode(bytes), 0, 0, 0) == Some(bytes)
  {
    if |bytes| < 3 {
      DecodeEnd(bytes);
    } else {
      var v0, v1, v2, v3 := Regroup(bytes[0], bytes[1], bytes[2]);
      DecodeEncode(bytes[3..]);
      var group := Group(bytes[0], bytes[1], bytes[2]);
      assert Encode(bytes) == group + Encode(bytes[3..]);
      DecodeFour(group, Encode(bytes[3..]), v0, v1, v2, v3);
      ConsThree(bytes);
    }
  }

  lemma ConsThree(bytes: seq<Byte>)
    requires |bytes| >= 3
    ensures Cons(bytes[0], Cons(bytes[1], Cons(bytes[2], Some(bytes[3..])))) == Some(bytes)
  {
    assert bytes == [bytes[0]] + ([bytes[1]] + ([bytes[2]] + bytes[3..]));
  }

  lemma DecodeEnd(bytes: seq<Byte>)
    requires |bytes| < 3
    ensures Decode(EncodeEnd(bytes), 0, 0, 0) == Some(bytes)
  {
    if |bytes| == 1 {
      DecodeOneByte(bytes[0]);
      assert bytes == [bytes[0]];
    } else if |bytes| == 2 {
      DecodeTwoBytes(bytes[0], bytes[1]);
      assert bytes == [bytes[0], bytes[1]];
    }
  }

  lemma DecodeOneByte(b0: Byte)
    ensures Decode(EncodeEnd([b0]), 0, 0, 0) == Some([b0])
  {
    var v0, v1, _, _ := Regroup(b0, 0, 0);
    DecodeTwo(Letter(v0), Letter(v1), v0, v1);
  }

  lemma DecodeTwoBytes(b0: Byte, b1: Byte)
    ensures Decode(EncodeEnd([b0, b1]), 0, 0, 0) == Some([b0, b1])
  {
    var v0, v1, v2, _ := Regroup(b0, b1, 0);
    DecodeThree(Letter(v0), Letter(v1), Letter(v2), v0, v1, v2);
  }

  lemma DecodeTwo(c0: char, c1: char, v0: int, v1: int)
    requires ValueOf(c0) == Some(v0) && ValueOf(c1) == Some(v1)
    ensures Decode([c0, c1, '=', '='], 0, 0, 0) == Some([v0 * 4 + v1 / 16])
  {
    var s := [c0, c1, '=', '='];
    assert s[1..] == [c1, '=', '='] && s[1..][1..] == "==" && "=="[1..] == "=";
    assert Decode("==", 2, v1 % 16, 0) == Decode("=", 2, v1 % 16, 1) == Some([]);
    assert Decode(s[1..], 1, v0, 0) == Cons(v0 * 4 + v1 / 16, Decode("==", 2, v1 % 16, 0));
    assert Decode(s, 0, 0, 0) == Decode(s[1..], 1, v0, 0);
    var b0: Byte := v0 * 4 + v1 / 16;
    assert [b0] + [] == [b0];
  }

  lemma DecodeThree(c0: char, c1: char, c2: char, v0: int, v1: int, v2: int)
    requires ValueOf(c0) == Some(v0) && ValueOf(c1) == Some(v1) && ValueOf(c2) == Some(v2)
    ensures Decode([c0, c1, c2, '='], 0, 0, 0) == Some([v0 * 4 + v1 / 16, v1 % 16 * 16 + v2 / 4])
  {
    var s := [c0, c1, c2, '='];
    assert s[1..] == [c1, c2, '='] && s[1..][1..] == [c2, '='] && [c2, '='][1..] == "=";
    assert Decode("=", 3, v2 % 4, 0) == Some([]);
    assert Decode([c2, '='], 2, v1 % 16, 0) == Cons(v1 % 16 * 16 + v2 / 4, Decode("=", 3, v2 % 4, 0));
    assert Decode(s[1..], 1, v0, 0) == Cons(v0 * 4 + v1 / 16, Decode([c2, '='], 2, v1 % 16, 0));
    assert Decode(s, 0, 0, 0) == Decode(s[1..], 1, v0, 0);
    var b0: Byte, b1: Byte := v0 * 4 + v1 / 16, v1 % 16 * 16 + v2 / 4;
    assert [b1] + [] == [b1] && [b0] + [b1] == [b0, b1];
  }

  lemma DecodeFour(g: string, rest: string, v0: int, v1: int, v2: int, v3: int)
    requires |g| == 4 && ValueOf(g[0]) == Some(v0) && ValueOf(g[1]) == Some(v1)
    requires ValueOf(g[2]) == Some(v2) && ValueOf(g[3]) == Some(v3)
    ensures Decode(g + rest, 0, 0, 0) ==
      Cons(v0 * 4 + v1 / 16, Cons(v1 % 16 * 16 + v2 / 4, Cons(v2 % 4 * 64 + v3, Decode(rest, 0, 0, 0))))
  {
    var s := g + rest;
    assert s[3..][1..] == rest;
    assert Decode(s[3..], 3, v2 % 4, 0) == Cons(v2 % 4 * 64 + v3, Decode(rest, 0, 0, 0));
    assert s[2..][1..] == s[3..];
    assert Decode(s[2..], 2, v1 % 16, 0) == Cons(v1 % 16 * 16 + v2 / 4, Decode(s[3..], 3, v2 % 4, 0));
    assert s[1..][1..] == s[2..];
    assert Decode(s[1..], 1, v0, 0) == Cons(v0 * 4 + v1 / 16, Decode(s[2..], 2, v1 % 16, 0));
  }

  /** Stripping the padding and recomputing it from the length loses nothing, for every byte sequence. */
  lemma UnpaddedRoundTrip(bytes: seq<Byte>)
    ensures var body := StripPadding(Encode(bytes));
      Letters(body) && Repad(body) == Encode(bytes) && Decode(Repad(body), 0, 0, 0) == Some(bytes)
  {
    var letters := EncodeShape(bytes);
    StripRestores(letters, -|letters| % 4);
    DecodeEncode(bytes);
  }

  /** Test vectors: "foobar" and "fooba" of section 10 of RFC 4648, and two bytes that need the letters
      of the URL-safe alphabet. */
  lemma KnownEncodings()
    ensures Encode([102, 111, 111, 98, 97, 114]) == "Zm9vYmFy" && Encode([102, 111, 111, 98, 97]) == "Zm9vYmE="
    ensures Encode([251, 255]) == "-_8=" && Encode([0]) == "AA==" && Encode([]) == ""
  {
    assert [102, 111, 111, 98, 97, 114][3..] == [98, 97, 114] && [98, 97, 114][3..] == [];
    assert Group(102, 111, 111) == "Zm9v" && Group(98, 97, 114) == "YmFy";
    assert [102, 111, 111, 98, 97][3..] == [98, 97];
    assert EncodeEnd([98, 97]) == "YmE=" && Encode([98, 97]) == "YmE=";
    assert Encode([98, 97, 114]) == "YmFy" + Encode([]);
  }

  // ----- Tokens -----

  datatype Payload = Payload(sub: string, username: string, iat: nat, exp: nat)

  /** The JSON text of a payload and the keyed hash, which the hub takes from libraries. */
  datatype Library = Library(dumps: Payload -> seq<Byte>, loads: seq<Byte> -> Option<Payload>, sign: string -> string)

  ghost predicate Sound(lib: Library)
  {
    (forall p :: lib.loads(lib.dumps(p)) == Some(p)) &&
    (forall body :: |lib.sign(body)| == 64 && forall c :: c in lib.sign(body) ==> '0' <= c <= '9' || 'a' <= c <= 'f')
  }

  const Second: nat := 1_000_000

  /** Times are microseconds since the epoch; a token carries whole seconds. */
  function Seconds(time: nat): nat { time / Second }

  function NewPayload(userId: string, username: string, now: nat, ttlMinutes: nat): Payload
  {
    Payload(userId, username, Seconds(now), Seconds(now + ttlMinutes * 60 * Second))
  }

  function BodyOf(payload: Payload, lib: Library): string
  {
    StripPadding(Encode(lib.dumps(payload)))
  }

  function IssueSessionToken(payload: Payload, lib: Library): string
  {
    BodyOf(payload, lib) + "." + lib.sign(BodyOf(payload, lib))
  }

  /** Raised: comparing a signature with characters outside ASCII is a TypeError in hmac.compare_digest. */
  datatype Reading = Accepted(payload: Payload) | Rejected | Raised

  predicate Ascii(s: string)
  {
    forall c :: c in s ==> c < '\U{80}'
  }

  /** Index of the last "." of a token that has one. */
  function LastDot(token: string): (k: nat)
    requires '.' in token
    ensures k < |token| && token[k] == '.' && forall i :: k < i < |token| ==> token[i] != '.'
  {
    var n := |token| - 1;
    if token[n] == '.' then n
    else
      assert token == token[..n] + [token[n]];
      LastDot(token[..n])
  }

  function ReadSessionToken(token: Option<string>, now: nat, lib: Library): Reading
  {
    if token.None? || '.' !in token.value then Rejected
    else
      var k := LastDot(token.value);
      var body, signature := token.value[..k], token.value[k + 1..];
      if !Ascii(signature) then Raised
      else if lib.sign(body) != signature then Rejected
      else if !Ascii(body) then Rejected
      else match Decode(Repad(body), 0, 0, 0)
        case None => Rejected
        case Some(bytes) =>
          match lib.loads(bytes)
          case None => Rejected
          case Some(payload) => if payload.exp < Seconds(now) then Rejected else Accepted(payload)
  }

  predicate SessionStillValid(payload: Payload, validAfter: Option<nat>)
  {
    validAfter.None? || payload.iat >= Seconds(validAfter.value)
  }

  lemma SplitSigned(body: string, signature: string)
    requires '.' !in signature
    ensures var token := body + "." + signature;
      '.' in token && token[..LastDot(token)] == body && token[LastDot(token) + 1..] == signature
  {
    var token := body + "." + signature;
    assert token[|body|] == '.';
    var k := LastDot(token);
    assert forall i :: |body| < i < |token| ==> token[i] == signature[i - |body| - 1] && token[i] in signature;
  }

  /** Main result: every issued token reads back as its payload, up to and including second exp. */
  lemma TokenRoundTrip(payload: Payload, now: nat, lib: Library)
    requires Sound(lib)
    ensures ReadSessionToken(Some(IssueSessionToken(payload, lib)), now, lib) ==
      if Seconds(now) <= payload.exp then Accepted(payload) else Rejected
  {
    UnpaddedRoundTrip(lib.dumps(payload));
    var body := BodyOf(payload, lib);
    SplitSigned(body, lib.sign(body));
  }

  /** The token is a body and its signature. */
  predicate IsSigned(token: string, body: string, lib: Library)
  {
    token == body + "." + lib.sign(body)
  }

  /** The body is ASCII and decodes to the payload. */
  predicate Holds(body: string, payload: Payload, lib: Library)
  {
    Ascii(body) &&
    match Decode(Repad(body), 0, 0, 0)
    case None => false
    case Some(bytes) => lib.loads(bytes) == Some(payload)
  }

  lemma SignedIsAccepted(body: string, now: nat, payload: Payload, lib: Library)
    requires Sound(lib)
    ensures ReadSessionToken(Some(body + "." + lib.sign(body)), now, lib) == Accepted(payload) <==>
      now / 1_000_000 <= payload.exp && Holds(body, payload, lib)
  {
    SplitSigned(body, lib.sign(body));
  }

  lemma AcceptedIsSigned(token: string, now: nat, payload: Payload, lib: Library)
    requires ReadSessionToken(Some(token), now, lib) == Accepted(payload)
    ensures '.' in token && IsSigned(token, token[..LastDot(token)], lib)
  {
    var k := LastDot(token);
    assert lib.sign(token[..k]) == token[k + 1..];
    CutAt(token, k);
  }

  lemma CutAt(token: string, k: nat)
    requires k < |token| && token[k] == '.'
    ensures token == token[..k] + "." + token[k + 1..]
  {
  }

  /** Exactly which tokens are accepted: a signed body in ASCII that decodes to the payload, until the
      second of its expiry is over. */
  lemma AcceptedMeansSigned(token: string, now: nat, payload: Payload, lib: Library)
    requires Sound(lib)
    ensures ReadSessionToken(Some(token), now, lib) == Accepted(payload) <==>
      now / 1_000_000 <= payload.exp && exists body :: IsSigned(token, body, lib) && Holds(body, payload, lib)
  {
    if ReadSessionToken(Some(token), now, lib) == Accepted(payload) {
      AcceptedIsSigned(token, now, payload, lib);
      SignedIsAccepted(token[..LastDot(token)], now, payload, lib);
    }
    if body :| IsSigned(token, body, lib) && Holds(body, payload, lib) {
      SignedIsAccepted(body, now, payload, lib);
    }
  }

  /** Reading raises instead of rejecting exactly when the token has a "." and something outside ASCII
      behind the last one; so never for an issued token. */
  lemma RaisesOnForeignSignature(token: string, now: nat, lib: Library)
    ensures ReadSessionToken(Some(token), now, lib) == Raised <==>
      exists body, signature :: token == body + "." + signature && '.' !in signature && !Ascii(signature)
  {
    if body, signature :| token == body + "." + signature && '.' !in signature && !Ascii(signature) {
      SplitSigned(body, signature);
    }
    if '.' in token {
      var k := LastDot(token);
      assert token == token[..k] + "." + token[k + 1..];
    }
  }

  /** Two payloads never share a token. */
  lemma TokensAreDistinct(a: Payload, b: Payload, lib: Library)
    requires Sound(lib) && a != b
    ensures IssueSessionToken(a, lib) != IssueSessionToken(b, lib)
  {
    TokenRoundTrip(a, 0, lib);
    TokenRoundTrip(b, 0, lib);
  }
}
