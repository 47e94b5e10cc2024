/**
 The Governor's hand-written JSON encoder (governor/src/heartbeat.rs) against a decoder written from
 RFC 8259: section 7 for strings, and section 4 for an object whose members are all strings.
 */
module JsonBody {
  import opened Wrappers

  const QUOTE: char := '\"'
  const BACKSLASH: char := '\\'

  // ---------------------------------------------------------------- encoding

  function Hex(d: nat): char
    requires d < 16
  {
    if d < 10 then ('0' as int + d) as char else ('a' as int + d - 10) as char
  }

  /** `{:04x}` of a number below 2^16. */
  function Hex4(n: nat): string
    requires n < 0x1_0000
  {
    [Hex(n / 0x1000), Hex(n / 0x100 % 16), Hex(n / 16 % 16), Hex(n % 16)]
  }

  function EncodeChar(c: char): (r: string)
    ensures r != []
  {
    if c == QUOTE then [BACKSLASH, QUOTE]
    else if c == BACKSLASH then [BACKSLASH, BACKSLASH]
    else if c == '\n' then [BACKSLASH, 'n']
    else if c == '\r' then [BACKSLASH, 'r']
    else if c == '\t' then [BACKSLASH, 't']
    else if c as int < 0x20 then [BACKSLASH, 'u'] + Hex4(c as int)
    else [c]
  }

  function EncodeChars(s: string): string {
    if s == [] then [] else EncodeChar(s[0]) + EncodeChars(s[1..])
  }

  function EncodeString(s: string): string { [QUOTE] + EncodeChars(s) + [QUOTE] }

  datatype Payload = Payload(version: string, signing: Option<string>, rustVersion: Option<string>)

  const VERSION: string := "version"
  const SIGNING: string := "signing"
  const RUST_VERSION: string := "rust_version"

  /** The text of a member as the source writes it out, name first. */
  function MemberText(name: string, value: string): string {
    [QUOTE] + name + [QUOTE, ':'] + EncodeString(value)
  }

  function OptionalText(name: string, value: Option<string>): string {
    match value
    case Some(v) => [','] + MemberText(name, v)
    case None => []
  }

  /** The three member names; the text of a body is the same for any. */
  datatype Names = Names(version: string, signing: string, rustVersion: string)

  function BodyWith(n: Names, p: Payload): string {
    ['{'] + MemberText(n.version, p.version) + OptionalText(n.signing, p.signing)
    + OptionalText(n.rustVersion, p.rustVersion) + ['}']
  }

  function TheNames(): Names { Names(VERSION, SIGNING, RUST_VERSION) }

  function Body(p: Payload): string { BodyWith(TheNames(), p) }

  // ---------------------------------------------------------------- decoding

  /** What was read, and what is left after it. */
  datatype Decoded<T> = Decoded(value: T, rest: string)

  function HexValue(c: char): Option<nat> {
    if '0' <= c <= '9' then Some(c as int - '0' as int)
    else if 'a' <= c <= 'f' then Some(c as int - 'a' as int + 10)
    else if 'A' <= c <= 'F' then Some(c as int - 'A' as int + 10)
    else None
  }

  function Hex4Value(t: string): Option<nat>
    requires |t| == 4
  {
    match (HexValue(t[0]), HexValue(t[1]), HexValue(t[2]), HexValue(t[3]))
    case (Some(a), Some(b), Some(c), Some(d)) => Some(a * 0x1000 + b * 0x100 + c * 16 + d)
    case _ => None
  }

  /** One escape sequence of section 7 and the text after it. Escaped surrogates, which come in pairs, are
      not read. */
  function Unescape(t: string): (r: Option<Decoded<char>>)
    requires t != [] && t[0] == BACKSLASH
    ensures r.Some? ==> |r.value.rest| < |t|
  {
    if |t| < 2 then None
    else if t[1] == QUOTE || t[1] == BACKSLASH || t[1] == '/' then Some(Decoded(t[1], t[2..]))
    else if t[1] == 'b' then Some(Decoded(8 as char, t[2..]))
    else if t[1] == 'f' then Some(Decoded(12 as char, t[2..]))
    else if t[1] == 'n' then Some(Decoded('\n', t[2..]))
    else if t[1] == 'r' then Some(Decoded('\r', t[2..]))
    else if t[1] == 't' then Some(Decoded('\t', t[2..]))
    else if t[1] == 'u' && |t| >= 6 then
      match Hex4Value(t[2..6])
      case Some(n) => if n < 0xD800 || 0xE000 <= n < 0x1_0000 then Some(Decoded(n as char, t[6..])) else None
      case None => None
    else None
  }

  function Prepend(c: char, d: Option<Decoded<string>>): Option<Decoded<string>> {
    match d
    case Some(d) => Some(Decoded([c] + d.value, d.rest))
    case None => None
  }

  /** The characters up to the closing quotation mark. */
  function DecodeChars(t: string): (r: Option<Decoded<string>>)
    ensures r.Some? ==> |r.value.rest| < |t|
    decreases |t|
  {
    if t == [] then None
    else if t[0] == QUOTE then Some(Decoded([], t[1..]))
    else if t[0] == BACKSLASH then
      match Unescape(t)
      case Some(d) => Prepend(d.value, DecodeChars(d.rest))
      case None => None
    else if t[0] as int < 0x20 then None
    else Prepend(t[0], DecodeChars(t[1..]))
  }

  function DecodeString(t: string): (r: Option<Decoded<string>>)
    ensures r.Some? ==> |r.value.rest| < |t|
  {
    if t != [] && t[0] == QUOTE then DecodeChars(t[1..]) else None
  }

  datatype Member = Member(name: string, value: string)

  function DecodeMember(t: string): (r: Option<Decoded<Member>>)
    ensures r.Some? ==> |r.value.rest| < |t|
  {
    match DecodeString(t)
    case None => None
    case Some(name) =>
      if name.rest == [] || name.rest[0] != ':' then None
      else match DecodeString(name.rest[1..])
        case None => None
        case Some(value) => Some(Decoded(Member(name.value, value.value), value.rest))
  }

  /** The members up to the closing brace, which must end the text. */
  function DecodeMembers(t: string): Option<seq<Member>>
    decreases |t|
  {
    match DecodeMember(t)
    case None => None
    case Some(m) =>
      if m.rest == ['}'] then Some([m.value])
      else if m.rest == [] || m.rest[0] != ',' then None
      else match DecodeMembers(m.rest[1..])
        case None => None
        case Some(more) => Some([m.value] + more)
  }

  function DecodeObject(t: string): Option<seq<Member>> {
    if t == [] || t[0] != '{' then None else DecodeMembers(t[1..])
  }

  // ---------------------------------------------------------------- decoding undoes encoding

  lemma {:induction false} HexRoundTrip(n: nat)
    requires n < 0x20
    ensures Hex4Value(Hex4(n)) == Some(n)
  {
    assert n / 0x1000 == 0 && n / 0x100 % 16 == 0;
    HexDigit(n / 16 % 16);
    HexDigit(n % 16);
    HexDigit(0);
    assert n / 16 % 16 * 16 + n % 16 == n;
  }

  lemma {:induction false} HexDigit(d: nat)
    requires d < 16
    ensures HexValue(Hex(d)) == Some(d)
  {
  }

  lemma {:induction false} DecodeOneChar(c: char, rest: string)
    ensures DecodeChars(EncodeChar(c) + rest) == Prepend(c, DecodeChars(rest))
  {
    var t := EncodeChar(c) + rest;
    assert t[0] == EncodeChar(c)[0];
    assert |EncodeChar(c)| == 1 ==> t[1..] == rest;
    assert |EncodeChar(c)| == 2 ==> t[1] == EncodeChar(c)[1] && t[2..] == rest;
    if c as int < 0x20 && c != '\n' && c != '\r' && c != '\t' {
      HexRoundTrip(c as int);
      assert t[1] == 'u' && t[2..6] == Hex4(c as int) && t[6..] == rest;
    }
  }

  lemma {:induction false} CharsRoundTrip(s: string, rest: string)
    ensures DecodeChars(EncodeChars(s) + ([QUOTE] + rest)) == Some(Decoded(s, rest))
  {
    var tail := [QUOTE] + rest;
    if s == [] {
      assert EncodeChars(s) + tail == tail && tail[1..] == rest;
    } else {
      assert EncodeChars(s) + tail == EncodeChar(s[0]) + (EncodeChars(s[1..]) + tail);
      DecodeOneChar(s[0], EncodeChars(s[1..]) + tail);
      CharsRoundTrip(s[1..], rest);
      assert [s[0]] + s[1..] == s;
    }
  }

  /** Every string is read back, whatever follows it: the encoding marks its own end. */
  lemma {:induction false} StringRoundTrip(s: string, rest: string)
    ensures DecodeString(EncodeString(s) + rest) == Some(Decoded(s, rest))
  {
    var t := EncodeString(s) + rest;
    assert t[1..] == EncodeChars(s) + ([QUOTE] + rest);
    CharsRoundTrip(s, rest);
  }

  predicate IsPlain(c: char) { c != QUOTE && c != BACKSLASH && c as int >= 0x20 }

  predicate Plain(s: string) { forall k :: 0 <= k < |s| ==> IsPlain(s[k]) }

  lemma {:induction false} PlainEncodesAsItself(s: string)
    requires Plain(s)
    ensures EncodeChars(s) == s
  {
    if s != [] {
      assert IsPlain(s[0]);
      forall k | 0 <= k < |s[1..]| ensures IsPlain(s[1..][k]) { assert s[1..][k] == s[k + 1]; }
      PlainEncodesAsItself(s[1..]);
      assert [s[0]] + s[1..] == s;
    }
  }

  lemma {:induction false} MemberTextStarts(name: string, value: string, rest: string)
    requires EncodeChars(name) == name
    ensures MemberText(name, value) + rest == EncodeString(name) + ([':'] + (EncodeString(value) + rest))
  {
  }

  lemma {:induction false} MemberRoundTrip(name: string, value: string, rest: string)
    requires Plain(name)
    ensures DecodeMember(MemberText(name, value) + rest) == Some(Decoded(Member(name, value), rest))
  {
    var tail := EncodeString(value) + rest;
    PlainEncodesAsItself(name);
    MemberTextStarts(name, value, rest);
    StringRoundTrip(name, [':'] + tail);
    assert ([':'] + tail)[1..] == tail;
    StringRoundTrip(value, rest);
  }

  function OptionalMember(name: string, value: Option<string>): seq<Member> {
    match value
    case Some(v) => [Member(name, v)]
    case None => []
  }

  /** The object a body is meant to be. */
  function Members(n: Names, p: Payload): seq<Member> {
    [Member(n.version, p.version)] + OptionalMember(n.signing, p.signing) + OptionalMember(n.rustVersion, p.rustVersion)
  }

  predicate PlainNames(n: Names) {
    && Plain(n.version) && Plain(n.signing) && Plain(n.rustVersion)
    && n.version != n.signing && n.version != n.rustVersion && n.signing != n.rustVersion
  }

  lemma {:induction false} TheNamesArePlain()
    ensures PlainNames(TheNames())
  {
  }

  lemma {:induction false} LastMember(name: string, value: string)
    requires Plain(name)
    ensures DecodeMembers(MemberText(name, value) + ['}']) == Some([Member(name, value)])
  {
    MemberRoundTrip(name, value, ['}']);
  }

  lemma {:induction false} MoreMembers(name: string, value: string, rest: string)
    requires Plain(name) && DecodeMembers(rest).Some?
    ensures DecodeMembers(MemberText(name, value) + ([','] + rest)) == Some([Member(name, value)] + DecodeMembers(rest).value)
  {
    MemberRoundTrip(name, value, [','] + rest);
    assert ([','] + rest)[1..] == rest;
  }

  /** A member followed by an optional one and the closing text. */
  lemma {:induction false} ThenOptional(name: string, value: string, last: string, option: Option<string>)
    requires Plain(name) && Plain(last)
    ensures DecodeMembers(MemberText(name, value) + (OptionalText(last, option) + ['}']))
      == Some([Member(name, value)] + OptionalMember(last, option))
  {
    match option
    case Some(v) =>
      var rest := MemberText(last, v) + ['}'];
      LastMember(last, v);
      MoreMembers(name, value, rest);
      assert OptionalText(last, option) + ['}'] == [','] + rest;
    case None =>
      LastMember(name, value);
      assert OptionalText(last, option) + ['}'] == ['}'];
      assert [Member(name, value)] + OptionalMember(last, option) == [Member(name, value)];
  }

  function AfterBrace(n: Names, p: Payload): string {
    MemberText(n.version, p.version) + (OptionalText(n.signing, p.signing) + (OptionalText(n.rustVersion, p.rustVersion) + ['}']))
  }

  lemma {:induction false} AfterBraceDecodes(n: Names, p: Payload)
    requires PlainNames(n)
    ensures DecodeMembers(AfterBrace(n, p)) == Some(Members(n, p))
  {
    var first, last := [Member(n.version, p.version)], OptionalMember(n.rustVersion, p.rustVersion);
    var end := OptionalText(n.rustVersion, p.rustVersion) + ['}'];
    match p.signing
    case Some(v) =>
      var rest := MemberText(n.signing, v) + end;
      assert OptionalText(n.signing, p.signing) + end == [','] + rest;
      ThenOptional(n.signing, v, n.rustVersion, p.rustVersion);
      MoreMembers(n.version, p.version, rest);
      assert Members(n, p) == first + ([Member(n.signing, v)] + last);
    case None =>
      assert OptionalText(n.signing, p.signing) + end == end;
      ThenOptional(n.version, p.version, n.rustVersion, p.rustVersion);
      assert Members(n, p) == first + last;
  }

  lemma {:induction false} NamedBodyRoundTrip(n: Names, p: Payload)
    requires PlainNames(n)
    ensures DecodeObject(BodyWith(n, p)) == Some(Members(n, p))
  {
    BodyStarts(n, p);
    assert (['{'] + AfterBrace(n, p))[1..] == AfterBrace(n, p);
    AfterBraceDecodes(n, p);
  }

  lemma {:induction false} BodyStarts(n: Names, p: Payload)
    ensures BodyWith(n, p) == ['{'] + AfterBrace(n, p)
  {
  }

  /** For every payload the body is a JSON object holding its values under their names, in order. */
  lemma {:induction false} BodyRoundTrip(p: Payload)
    ensures DecodeObject(Body(p)) == Some(Members(TheNames(), p))
  {
    TheNamesArePlain();
    NamedBodyRoundTrip(TheNames(), p);
  }

  lemma {:induction false} MembersDetermine(n: Names, p: Payload, q: Payload)
    requires PlainNames(n) && Members(n, p) == Members(n, q)
    ensures p == q
  {
    var a, b := Members(n, p), Members(n, q);
    assert |a| == |b| && a[0] == b[0];
    assert |a| > 1 ==> a[1] == b[1];
    assert |a| > 2 ==> a[2] == b[2];
  }

  /** No two payloads have the same body: an absent value is not confused with an empty or a present one. */
  lemma {:induction false} BodyIsInjective(p: Payload, q: Payload)
    ensures Body(p) == Body(q) <==> p == q
  {
    TheNamesArePlain();
    BodyRoundTrip(p);
    BodyRoundTrip(q);
    if Body(p) == Body(q) { MembersDetermine(TheNames(), p, q); }
  }

  // ---------------------------------------------------------------- the encoder's loops

  lemma {:induction false} EncodeOneMore(s: string, k: nat)
    requires k < |s|
    ensures EncodeChars(s[..k + 1]) == EncodeChars(s[..k]) + EncodeChar(s[k])
  {
    if k == 0 {
      assert s[..1] == [s[0]] && s[..1][1..] == [] && s[..0] == [];
    } else {
      assert s[..k + 1][1..] == s[1..][..k] && s[..k][1..] == s[1..][..k - 1];
      EncodeOneMore(s[1..], k - 1);
    }
  }

  /** What has been written when `s` has been read. */
  function Begun(s: string): string { [QUOTE] + EncodeChars(s) }

  lemma {:induction false} BegunOneMore(s: string, k: nat)
    requires k < |s|
    ensures Begun(s[..k + 1]) == Begun(s[..k]) + EncodeChar(s[k])
  {
    EncodeOneMore(s, k);
  }

  /** The encoder's match on one character. */
  method Escaped(ch: char) returns (piece: string)
    ensures piece == EncodeChar(ch)
  {
    if ch == QUOTE {
      piece := [BACKSLASH, QUOTE];
    } else if ch == BACKSLASH {
      piece := [BACKSLASH, BACKSLASH];
    } else if ch == '\n' {
      piece := [BACKSLASH, 'n'];
    } else if ch == '\r' {
      piece := [BACKSLASH, 'r'];
    } else if ch == '\t' {
      piece := [BACKSLASH, 't'];
    } else if ch as int < 0x20 {
      piece := [BACKSLASH, 'u'] + Hex4(ch as int);
    } else {
      piece := [ch];
    }
  }

  /** `json_string`: one push per character. */
  method JsonString(s: string) returns (out: string)
    ensures out == EncodeString(s)
  {
    out := [QUOTE];
    for i := 0 to |s|
      invariant out == Begun(s[..i])
    {
      var piece := Escaped(s[i]);
      BegunOneMore(s, i);
      out := out + piece;
    }
    assert s[..|s|] == s;
    out := out + [QUOTE];
  }

  /** `to_json_body`, pushed piece by piece. */
  method ToJsonBodyWith(n: Names, p: Payload) returns (s: string)
    ensures s == BodyWith(n, p)
  {
    var text := JsonString(p.version);
    s := ['{'] + ([QUOTE] + n.version + [QUOTE, ':'] + text);
    if p.signing.Some? {
      text := JsonString(p.signing.value);
      s := s + ([','] + ([QUOTE] + n.signing + [QUOTE, ':'] + text));
    }
    assert s == ['{'] + MemberText(n.version, p.version) + OptionalText(n.signing, p.signing);
    if p.rustVersion.Some? {
      text := JsonString(p.rustVersion.value);
      s := s + ([','] + ([QUOTE] + n.rustVersion + [QUOTE, ':'] + text));
    }
    assert s == ['{'] + MemberText(n.version, p.version) + OptionalText(n.signing, p.signing)
                + OptionalText(n.rustVersion, p.rustVersion);
    s := s + ['}'];
  }

  method ToJsonBody(p: Payload) returns (s: string)
    ensures s == Body(p) && DecodeObject(s) == Some(Members(TheNames(), p))
  {
    s := ToJsonBodyWith(TheNames(), p);
    BodyRoundTrip(p);
  }
}
