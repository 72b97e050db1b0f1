/** Percent encoding over Unicode scalar strings (Dafny's `char`), the identifier forms built
    on it, and the file names of job uids. */
module Encoding {
  import opened Jobs

  // ---- UTF-8 (section 3 of RFC 3629) and triplets (section 2.1 of RFC 3986) ----

  type Byte = b: nat | b < 256

  function Utf8(c: char): (bytes: seq<Byte>)
    ensures 1 <= |bytes| <= 4
  {
    var x := c as int;
    if x < 0x80 then [x]
    else if x < 0x800 then [0xC0 + x / 64, 0x80 + x % 64]
    else if x < 0x10000 then [0xE0 + x / 4096, 0x80 + (x / 64) % 64, 0x80 + x % 64]
    else [0xF0 + x / 262144, 0x80 + (x / 4096) % 64, 0x80 + (x / 64) % 64, 0x80 + x % 64]
  }

  /** How many bytes the character led by `b` takes. */
  function Width(b: Byte): nat {
    if b < 0x80 then 1 else if b < 0xE0 then 2 else if b < 0xF0 then 3 else 4
  }

  /** The scalar value of a whole UTF-8 sequence, if it is one. */
  function FromUtf8(bytes: seq<Byte>): Option<char>
    requires 1 <= |bytes| <= 4
  {
    var b := seq(|bytes|, i requires 0 <= i < |bytes| => bytes[i] as int);
    var x :=
      if |b| == 1 then b[0]
      else if |b| == 2 then (b[0] - 0xC0) * 64 + (b[1] - 0x80)
      else if |b| == 3 then (b[0] - 0xE0) * 4096 + (b[1] - 0x80) * 64 + (b[2] - 0x80)
      else (b[0] - 0xF0) * 262144 + (b[1] - 0x80) * 4096 + (b[2] - 0x80) * 64 + (b[3] - 0x80);
    if 0 <= x < 0xD800 || 0xE000 <= x < 0x110000 then Some(x as char) else None
  }

  lemma Utf8RoundTrip(c: char)
    ensures Width(Utf8(c)[0]) == |Utf8(c)| && FromUtf8(Utf8(c)) == Some(c)
  {
    var x := c as int;
    assert x == x / 64 * 64 + x % 64;
    assert x / 64 == x / 4096 * 64 + (x / 64) % 64 by {
      assert x / 64 / 64 == x / 4096;
    }
    assert x / 4096 == x / 262144 * 64 + (x / 4096) % 64 by {
      assert x / 4096 / 64 == x / 262144;
    }
  }

  /** The lead byte tells the width, and is followed by continuation bytes (section 4 of RFC 3629). */
  lemma Utf8IsWellFormed(c: char)
    ensures var b := Utf8(c);
      && (|b| == 1 <==> c as int < 0x80) && (|b| <= 2 <==> c as int < 0x800) && (|b| <= 3 <==> c as int < 0x10000)
      && (|b| == 1 ==> b[0] == c as int) && (|b| == 2 ==> 0xC2 <= b[0] <= 0xDF)
      && (|b| == 3 ==> 0xE0 <= b[0] <= 0xEF) && (|b| == 4 ==> 0xF0 <= b[0] <= 0xF4)
      && forall i :: 1 <= i < |b| ==> 0x80 <= b[i] <= 0xBF
  {
  }

  predicate IsHex(c: char) { '0' <= c <= '9' || 'A' <= c <= 'F' }

  function HexDigit(d: nat): (c: char)
    requires d < 16
    ensures IsHex(c)
  {
    if d < 10 then ('0' as int + d) as char else ('A' as int + d - 10) as char
  }

  function HexValue(c: char): (v: nat)
    requires IsHex(c)
    ensures v < 16 && HexDigit(v) == c
    ensures forall d: nat :: d < 16 && HexDigit(d) == c ==> d == v
  {
    if '0' <= c <= '9' then c as int - '0' as int else c as int - 'A' as int + 10
  }

  function Triplet(b: Byte): (s: string)
    ensures |s| == 3 && s[0] == '%' && IsHex(s[1]) && IsHex(s[2])
  {
    ['%', HexDigit(b / 16), HexDigit(b % 16)]
  }

  /** The byte a triplet at the head of `s` stands for. */
  function ReadByte(s: string): Option<Byte> {
    if |s| >= 3 && s[0] == '%' && IsHex(s[1]) && IsHex(s[2])
    then Some(HexValue(s[1]) * 16 + HexValue(s[2]))
    else None
  }

  lemma ReadTriplet(b: Byte, rest: string)
    ensures ReadByte(Triplet(b) + rest) == Some(b) && (Triplet(b) + rest)[3..] == rest
  {
    var s := Triplet(b) + rest;
    assert s[1] == HexDigit(b / 16) && s[2] == HexDigit(b % 16);
  }

  function Triplets(bytes: seq<Byte>): string {
    if bytes == [] then [] else Triplet(bytes[0]) + Triplets(bytes[1..])
  }

  // ---- percent encoding ----

  /** `keep` says which characters stay; the escape character never does. */
  function Code(c: char, keep: char -> bool): (s: string)
    ensures s != []
  {
    if c == '%' then "%25" else if keep(c) then [c] else Triplets(Utf8(c))
  }

  function Encode(text: string, keep: char -> bool): string {
    if text == [] then [] else Code(text[0], keep) + Encode(text[1..], keep)
  }

  /** Which characters a call leaves alone: the allowed ones, or, when no allowlist is given,
      the printable ones outside the forbidden set (an empty one means the default). */
  datatype Charset = Allowed(chars: set<char>) | Forbidden(chars: set<char>)

  const DEFAULT_FORBIDDEN := {'/', '\\', ':', '%'}

  predicate Keeps(charset: Charset, printable: char -> bool, c: char) {
    match charset
    case Allowed(chars) => c in chars
    case Forbidden(chars) => printable(c) && c !in if chars == {} then DEFAULT_FORBIDDEN else chars
  }

  function Keeping(charset: Charset, printable: char -> bool): char -> bool {
    c => Keeps(charset, printable, c)
  }

  method PercentEncode(text: string, charset: Charset, printable: char -> bool) returns (out: string)
    ensures out == Encode(text, Keeping(charset, printable))
    ensures EncodedAs(text, charset, printable, out)
  {
    out := [];
    var keep := Keeping(charset, printable);
    for i := 0 to |text|
      invariant out == Encode(text[..i], keep)
    {
      EncodeAppend(text[..i], [text[i]], keep);
      assert text[..i + 1] == text[..i] + [text[i]];
      if text[i] == '%' {
        out := out + "%25";
      } else if Keeps(charset, printable, text[i]) {
        out := out + [text[i]];
      } else {
        out := out + Triplets(Utf8(text[i]));
      }
    }
    assert text[..|text|] == text;
    EncodeMeans(text, charset, printable);
  }

  lemma Regrouped(x: string, y: string, z: string)
    ensures x + (y + z) == (x + y) + z
  {
  }

  lemma EncodeCons(c: char, rest: string, keep: char -> bool)
    ensures Encode([c] + rest, keep) == Code(c, keep) + Encode(rest, keep)
  {
    assert ([c] + rest)[1..] == rest;
  }

  lemma {:induction false} EncodeAppend(a: string, b: string, keep: char -> bool)
    ensures Encode(a + b, keep) == Encode(a, keep) + Encode(b, keep)
  {
    if a == [] {
      assert a + b == b;
    } else {
      var c, rest := a[0], a[1..];
      assert a == [c] + rest;
      Regrouped([c], rest, b);
      EncodeCons(c, rest, keep);
      EncodeCons(c, rest + b, keep);
      EncodeAppend(rest, b, keep);
      Regrouped(Code(c, keep), Encode(rest, keep), Encode(b, keep));
    }
  }

  // ---- decoding ----

  /** The bytes of the first `n` triplets of `s`. */
  function ReadBytes(s: string, n: nat): (r: Option<seq<Byte>>)
    ensures r.Some? ==> |r.value| == n && |s| >= 3 * n
  {
    if n == 0 then Some([])
    else
      var b := ReadByte(s);
      if b.None? then None
      else
        var rest := ReadBytes(s[3..], n - 1);
        if rest.None? then None else Some([b.value] + rest.value)
  }

  lemma ReadTriplets(bytes: seq<Byte>, rest: string)
    ensures ReadBytes(Triplets(bytes) + rest, |bytes|) == Some(bytes) && |Triplets(bytes)| == 3 * |bytes|
  {
    if bytes != [] {
      ReadTriplets(bytes[1..], rest);
      var tail := Triplets(bytes[1..]) + rest;
      Regroup(bytes, rest);
      ReadTriplet(bytes[0], tail);
      assert [bytes[0]] + bytes[1..] == bytes;
    }
  }

  lemma Regroup(bytes: seq<Byte>, rest: string)
    requires bytes != []
    ensures Triplets(bytes) + rest == Triplet(bytes[0]) + (Triplets(bytes[1..]) + rest)
  {
  }

  /** The first character of an encoded string and how much of it that character takes. */
  function DecodeOne(s: string): (r: Option<(char, nat)>)
    requires s != []
    ensures r.Some? ==> 0 < r.value.1 <= |s|
  {
    if s[0] != '%' then Some((s[0], 1))
    else
      var lead := ReadByte(s);
      if lead.None? then None
      else
        var bytes := ReadBytes(s, Width(lead.value));
        if bytes.None? then None
        else
          var c := FromUtf8(bytes.value);
          if c.None? then None else Some((c.value, 3 * Width(lead.value)))
  }

  function Decode(s: string): Option<string> {
    if s == [] then Some([])
    else
      var one := DecodeOne(s);
      if one.None? then None
      else
        var rest := Decode(s[one.value.1..]);
        if rest.None? then None else Some([one.value.0] + rest.value)
  }

  /** Whatever follows, the first code word is read back exactly. */
  lemma DecodeFirst(c: char, keep: char -> bool, rest: string)
    ensures DecodeOne(Code(c, keep) + rest) == Some((c, |Code(c, keep)|))
  {
    if c == '%' || !keep(c) {
      var bytes := Utf8(c);
      PercentTriplet();
      ReadTriplets(bytes, rest);
      Regroup(bytes, rest);
      ReadTriplet(bytes[0], Triplets(bytes[1..]) + rest);
      Utf8RoundTrip(c);
    }
  }

  lemma PercentTriplet()
    ensures Triplets(Utf8('%')) == "%25"
  {
    var bytes := Utf8('%');
    assert bytes == [0x25] && bytes[1..] == [];
    assert Triplet(0x25) == "%25";
  }

  /** One decoder undoes the encoding for every choice of kept characters. */
  lemma {:induction false} DecodeEncode(text: string, keep: char -> bool)
    ensures Decode(Encode(text, keep)) == Some(text)
  {
    if text != [] {
      var rest := Encode(text[1..], keep);
      DecodeFirst(text[0], keep, rest);
      DecodeEncode(text[1..], keep);
      assert (Code(text[0], keep) + rest)[|Code(text[0], keep)|..] == rest;
      assert [text[0]] + text[1..] == text;
    }
  }

  lemma EncodeInjective(a: string, b: string, keep: char -> bool)
    requires Encode(a, keep) == Encode(b, keep)
    ensures a == b
  {
    DecodeEncode(a, keep);
    DecodeEncode(b, keep);
  }

  /** A prefix code: the encoding of `a` starts that of `b` only if `a` starts `b`. */
  lemma {:induction false} PrefixCode(a: string, b: string, keep: char -> bool)
    ensures Encode(a, keep) <= Encode(b, keep) <==> a <= b
  {
    if a <= b {
      PrefixKept(a, b, keep);
    }
    if a != [] && Encode(a, keep) <= Encode(b, keep) {
      FirstMatches(a, b, keep);
      PrefixCode(a[1..], b[1..], keep);
      assert a == [a[0]] + a[1..] && b == [b[0]] + b[1..];
    }
  }

  lemma PrefixKept(a: string, b: string, keep: char -> bool)
    requires a <= b
    ensures Encode(a, keep) <= Encode(b, keep)
  {
    EncodeAppend(a, b[|a|..], keep);
    assert b == a + b[|a|..];
  }

  lemma FirstMatches(a: string, b: string, keep: char -> bool)
    requires a != [] && Encode(a, keep) <= Encode(b, keep)
    ensures b != [] && a[0] == b[0] && Encode(a[1..], keep) <= Encode(b[1..], keep)
  {
    var rest := RestOf(Code(a[0], keep), Encode(a[1..], keep), Encode(b, keep));
    SameFirst(a[0], Encode(a[1..], keep) + rest, b[0], Encode(b[1..], keep), keep);
  }

  lemma RestOf(x: string, y: string, whole: string) returns (rest: string)
    requires x + y <= whole
    ensures whole == x + (y + rest)
  {
    rest := whole[|x + y|..];
    Regrouped(x, y, rest);
  }

  /** The first code word, and so what follows it, can be told from the text. */
  lemma SameFirst(c: char, after: string, d: char, after': string, keep: char -> bool)
    requires Code(c, keep) + after == Code(d, keep) + after'
    ensures c == d && after == after'
  {
    DecodeFirst(c, keep, after);
    DecodeFirst(d, keep, after');
    assert (Code(c, keep) + after)[|Code(c, keep)|..] == after;
    assert (Code(d, keep) + after')[|Code(d, keep)|..] == after';
  }

  // ---- the shape of the image ----

  /** Every escape character starts a triplet. */
  ghost predicate WellEscaped(s: string) {
    forall i :: 0 <= i < |s| && s[i] == '%' ==> i + 2 < |s| && IsHex(s[i + 1]) && IsHex(s[i + 2])
  }

  lemma WellEscapedAppend(a: string, b: string)
    requires WellEscaped(a) && WellEscaped(b)
    ensures WellEscaped(a + b)
  {
    var s := a + b;
    forall i | 0 <= i < |s| && s[i] == '%' ensures i + 2 < |s| && IsHex(s[i + 1]) && IsHex(s[i + 2]) {
      if i < |a| {
        assert a[i] == '%' && s[i + 1] == a[i + 1] && s[i + 2] == a[i + 2];
      } else {
        var k := i - |a|;
        assert b[k] == '%' && s[i + 1] == b[k + 1] && s[i + 2] == b[k + 2];
      }
    }
  }

  lemma TripletsWellEscaped(bytes: seq<Byte>)
    ensures WellEscaped(Triplets(bytes))
  {
    if bytes != [] {
      TripletsWellEscaped(bytes[1..]);
      WellEscapedAppend(Triplet(bytes[0]), Triplets(bytes[1..]));
    }
  }

  lemma EncodeWellEscaped(text: string, keep: char -> bool)
    ensures WellEscaped(Encode(text, keep))
  {
    if text != [] {
      EncodeWellEscaped(text[1..], keep);
      TripletsWellEscaped(Utf8(text[0]));
      assert IsHex('2') && IsHex('5');
      WellEscapedAppend(Code(text[0], keep), Encode(text[1..], keep));
    }
  }

  // ---- which characters stay ----

  /** Position `i` belongs to an escape: a percent sign and two uppercase hexadecimal digits. */
  ghost predicate Escaped(s: string, i: int) {
    exists j :: 0 <= j <= i <= j + 2 < |s| && s[j] == '%' && IsHex(s[j + 1]) && IsHex(s[j + 2])
  }

  lemma EscapedLeft(a: string, b: string, i: int)
    requires Escaped(a, i)
    ensures Escaped(a + b, i)
  {
    var j :| 0 <= j <= i <= j + 2 < |a| && a[j] == '%' && IsHex(a[j + 1]) && IsHex(a[j + 2]);
    var s := a + b;
    assert s[j] == '%' && s[j + 1] == a[j + 1] && s[j + 2] == a[j + 2];
  }

  lemma EscapedRight(a: string, b: string, i: int)
    requires Escaped(b, i)
    ensures Escaped(a + b, |a| + i)
  {
    var j :| 0 <= j <= i <= j + 2 < |b| && b[j] == '%' && IsHex(b[j + 1]) && IsHex(b[j + 2]);
    var s, k := a + b, |a| + j;
    assert s[k] == '%' && s[k + 1] == b[j + 1] && s[k + 2] == b[j + 2];
  }

  /** Every position of the output is part of an escape, or one of the kept characters of the text. */
  ghost predicate Spells(out: string, text: string, keep: char -> bool) {
    forall i :: 0 <= i < |out| ==> Escaped(out, i) || (out[i] in text && out[i] != '%' && keep(out[i]))
  }

  lemma SpellsJoin(a: string, b: string, x: string, y: string, keep: char -> bool)
    requires Spells(a, x, keep) && Spells(b, y, keep)
    ensures Spells(a + b, x + y, keep)
  {
    var s := a + b;
    forall i | 0 <= i < |s| ensures Escaped(s, i) || (s[i] in x + y && s[i] != '%' && keep(s[i])) {
      if i < |a| {
        if Escaped(a, i) {
          EscapedLeft(a, b, i);
        }
      } else if Escaped(b, i - |a|) {
        EscapedRight(a, b, i - |a|);
      } else {
        assert s[i] == b[i - |a|];
      }
    }
  }

  lemma {:induction false} TripletsSpell(bytes: seq<Byte>, keep: char -> bool)
    ensures Spells(Triplets(bytes), [], keep)
  {
    if bytes != [] {
      var head := Triplet(bytes[0]);
      TripletsSpell(bytes[1..], keep);
      forall i | 0 <= i < 3 ensures Escaped(head, i) {
        assert head[0] == '%' && IsHex(head[0 + 1]) && IsHex(head[0 + 2]);
      }
      SpellsJoin(head, Triplets(bytes[1..]), [], [], keep);
    }
  }

  lemma {:induction false} EncodeSpells(text: string, keep: char -> bool)
    ensures Spells(Encode(text, keep), text, keep)
  {
    if text != [] {
      EncodeSpells(text[1..], keep);
      CodeSpells(text[0], keep);
      SpellsJoin(Code(text[0], keep), Encode(text[1..], keep), [text[0]], text[1..], keep);
      assert [text[0]] + text[1..] == text;
    }
  }

  lemma CodeSpells(c: char, keep: char -> bool)
    ensures Spells(Code(c, keep), [c], keep)
  {
    PercentTriplet();
    TripletsSpell(Utf8(c), keep);
  }

  /** A text of kept characters without the escape character comes out as it is. */
  lemma {:induction false} KeptStays(text: string, keep: char -> bool)
    requires forall c :: c in text ==> c != '%' && keep(c)
    ensures Encode(text, keep) == text
  {
    if text != [] {
      assert text[0] in text && forall c :: c in text[1..] ==> c in text;
      KeptStays(text[1..], keep);
      assert [text[0]] + text[1..] == text;
    }
  }

  /** What percent encoding makes of a text: allowed characters, or printable ones that are not forbidden,
      and escapes, nothing else; the forbidden set defaults to four characters. A text that needs no
      escape comes out as it is, and what an output is put together from can be encoded by itself. */
  ghost predicate EncodedAs(text: string, charset: Charset, printable: char -> bool, out: string) {
    && (charset.Allowed? ==>
          && (forall i :: 0 <= i < |out| ==> Escaped(out, i) || (out[i] in charset.chars && out[i] in text))
          && ((forall c :: c in text ==> c in charset.chars && c != '%') ==> out == text))
    && (charset.Forbidden? ==>
          var forbidden := if charset.chars == {} then {'/', '\\', ':', '%'} else charset.chars;
          && (forall i :: 0 <= i < |out| ==>
                Escaped(out, i) || (printable(out[i]) && out[i] !in forbidden && out[i] in text))
          && ((forall c :: c in text ==> printable(c) && c !in forbidden && c != '%') ==> out == text))
  }

  lemma EncodeMeans(text: string, charset: Charset, printable: char -> bool)
    ensures EncodedAs(text, charset, printable, Encode(text, Keeping(charset, printable)))
  {
    var keep := Keeping(charset, printable);
    EncodeSpells(text, keep);
    if forall c :: c in text ==> c != '%' && keep(c) {
      KeptStays(text, keep);
    }
  }

  // ---- identifiers ----

  const DIGEST_LENGTH := 16
  const MARKER := "%_"
  const FIXED_LENGTH := 18
  const EMPTY_SENTINEL := "%untitled"

  /** The first sixteen hexadecimal digits of a digest of the whole text. */
  type Digest = s: string | |s| == DIGEST_LENGTH witness "0000000000000000"

  datatype Identifier = Id(text: string) | TooNarrow

  /** Cut off a broken escape at the end. */
  function Trim(prefix: string): string {
    if prefix != [] && prefix[|prefix| - 1] == '%' then prefix[..|prefix| - 1]
    else if |prefix| >= 2 && prefix[|prefix| - 2] == '%' then prefix[..|prefix| - 2]
    else prefix
  }

  /** The part of an over-long encoding that is kept. */
  function KeptHead(escaped: string, maxLen: int): string
    requires FIXED_LENGTH <= maxLen < |escaped|
  {
    Trim(escaped[..maxLen - FIXED_LENGTH])
  }

  function EncodeIdentifier(value: Option<string>, maxLen: int, keep: char -> bool, fallback: string,
                            digest: string -> Digest): Identifier
  {
    if value.None? || value.value == [] then Id(fallback)
    else
      var escaped := Encode(value.value, keep);
      if |escaped| <= maxLen then Id(escaped)
      else if maxLen < FIXED_LENGTH then TooNarrow
      else Id(KeptHead(escaped, maxLen) + MARKER + digest(value.value))
  }

  /** The text is passed through unshortened. */
  predicate Passes(text: string, maxLen: int, keep: char -> bool) {
    text != [] && |Encode(text, keep)| <= maxLen
  }

  predicate Shortened(text: string, maxLen: int, keep: char -> bool) {
    text != [] && FIXED_LENGTH <= maxLen < |Encode(text, keep)|
  }

  /** Trimming a cut encoding leaves whole escapes only, and no more than they make necessary: any longer
      part of the cut ends inside an escape. */
  lemma TrimLeavesWholeEscapes(escaped: string, n: nat)
    requires WellEscaped(escaped) && n <= |escaped|
    ensures WellEscaped(Trim(escaped[..n])) && Trim(escaped[..n]) <= escaped && n - 2 <= |Trim(escaped[..n])| <= n
    ensures forall m :: |Trim(escaped[..n])| < m <= n ==> !WellEscaped(escaped[..m])
  {
    var cut := Trim(escaped[..n]);
    forall m | |cut| < m <= n ensures !WellEscaped(escaped[..m]) {
      assert escaped[..n][|cut|] == '%';
      assert escaped[..m][|cut|] == '%';
    }
    forall c | IsHex(c) ensures c != '%' {
    }
    forall i | 0 <= i < |cut| && cut[i] == '%' ensures i + 2 < |cut| && IsHex(cut[i + 1]) && IsHex(cut[i + 2]) {
      assert escaped[i] == '%';
      assert escaped[i + 1] != '%' && escaped[i + 2] != '%';
    }
  }

  /** The length bound, and when no identifier fits. */
  lemma IdentifierFits(text: string, maxLen: int, keep: char -> bool, digest: string -> Digest)
    requires text != []
    ensures var r := EncodeIdentifier(Some(text), maxLen, keep, EMPTY_SENTINEL, digest);
      && (r.TooNarrow? <==> !Passes(text, maxLen, keep) && maxLen < FIXED_LENGTH)
      && (r.Id? ==> 0 < |r.text| <= maxLen)
  {
    if Shortened(text, maxLen, keep) {
      var escaped := Encode(text, keep);
      EncodeWellEscaped(text, keep);
      TrimLeavesWholeEscapes(escaped, maxLen - FIXED_LENGTH);
    }
  }

  /** The head that is kept is as much of the encoding as fits before the marker without cutting an escape;
      so the marker is the first stray escape. */
  lemma ShortenedShape(text: string, maxLen: int, keep: char -> bool, digest: string -> Digest)
    requires Shortened(text, maxLen, keep)
    ensures var escaped := Encode(text, keep);
      var head := KeptHead(escaped, maxLen);
      && head <= escaped && WellEscaped(head) && |head| <= maxLen - FIXED_LENGTH
      && (forall m :: |head| < m <= maxLen - FIXED_LENGTH ==> !WellEscaped(escaped[..m]))
      && EncodeIdentifier(Some(text), maxLen, keep, EMPTY_SENTINEL, digest) == Id(head + MARKER + digest(text))
      && !WellEscaped(head + MARKER + digest(text))
      && head + MARKER + digest(text) != EMPTY_SENTINEL
  {
    var escaped := Encode(text, keep);
    EncodeWellEscaped(text, keep);
    TrimLeavesWholeEscapes(escaped, maxLen - FIXED_LENGTH);
    var head := KeptHead(escaped, maxLen);
    var out := head + MARKER + digest(text);
    assert out[|head|] == '%' && out[|head| + 1] == '_' && !IsHex('_');
    assert |out| > 9;
  }

  lemma SentinelIsStray()
    ensures !WellEscaped(EMPTY_SENTINEL)
  {
    assert EMPTY_SENTINEL[0] == '%' && EMPTY_SENTINEL[1] == 'u' && !IsHex('u');
  }

  /** Sentinel, passed-through and shortened identifiers never meet. */
  lemma DomainsAreDisjoint(a: string, b: string, maxLen: int, keep: char -> bool, digest: string -> Digest)
    requires Passes(a, maxLen, keep) && Shortened(b, maxLen, keep)
    ensures var x := EncodeIdentifier(Some(a), maxLen, keep, EMPTY_SENTINEL, digest);
      var y := EncodeIdentifier(Some(b), maxLen, keep, EMPTY_SENTINEL, digest);
      var empty := EncodeIdentifier(None, maxLen, keep, EMPTY_SENTINEL, digest);
      x != y && x != empty && y != empty
  {
    EncodeWellEscaped(a, keep);
    ShortenedShape(b, maxLen, keep, digest);
    SentinelIsStray();
  }

  /** Splitting at the first stray escape recovers the head. */
  lemma HeadIsUnique(a: string, x: string, b: string, y: string)
    requires WellEscaped(a) && WellEscaped(b) && a + MARKER + x == b + MARKER + y
    ensures a == b && x == y
  {
    var s := a + MARKER + x;
    assert s[|a|] == '%' && s[|a| + 1] == '_' && s[|b|] == '%' && s[|b| + 1] == '_' && !IsHex('_');
    assert forall i :: 0 <= i < |a| ==> s[i] == a[i];
    assert forall i :: 0 <= i < |b| ==> s[i] == b[i];
    assert |a| == |b|;
    assert a == s[..|a|] && b == s[..|b|];
    assert x == s[|a| + 2..] && y == s[|b| + 2..];
  }

  /** Two different texts share an identifier only if both are shortened, to the same head, with
      the same digest. */
  lemma CollisionsAreDigestCollisions(a: string, b: string, maxLen: int, keep: char -> bool, digest: string -> Digest)
    requires a != [] && b != [] && a != b
    requires EncodeIdentifier(Some(a), maxLen, keep, EMPTY_SENTINEL, digest).Id?
    ensures
      EncodeIdentifier(Some(a), maxLen, keep, EMPTY_SENTINEL, digest) ==
        EncodeIdentifier(Some(b), maxLen, keep, EMPTY_SENTINEL, digest)
      <==>
      && Shortened(a, maxLen, keep) && Shortened(b, maxLen, keep) && digest(a) == digest(b)
      && KeptHead(Encode(a, keep), maxLen) == KeptHead(Encode(b, keep), maxLen)
  {
    if Passes(a, maxLen, keep) && Passes(b, maxLen, keep) && Encode(a, keep) == Encode(b, keep) {
      EncodeInjective(a, b, keep);
    } else if Passes(a, maxLen, keep) && Shortened(b, maxLen, keep) {
      DomainsAreDisjoint(a, b, maxLen, keep, digest);
    } else if Passes(b, maxLen, keep) && Shortened(a, maxLen, keep) {
      DomainsAreDisjoint(b, a, maxLen, keep, digest);
    } else if Shortened(a, maxLen, keep) && Shortened(b, maxLen, keep) {
      ShortenedShape(a, maxLen, keep, digest);
      ShortenedShape(b, maxLen, keep, digest);
      var ha, hb := KeptHead(Encode(a, keep), maxLen), KeptHead(Encode(b, keep), maxLen);
      if ha + MARKER + digest(a) == hb + MARKER + digest(b) {
        HeadIsUnique(ha, digest(a), hb, digest(b));
      }
    }
  }

  // ---- content ids ----

  /** Letters, digits, hyphen, underscore and full stop. */
  predicate IsClean(c: char) {
    'a' <= c <= 'z' || 'A' <= c <= 'Z' || '0' <= c <= '9' || c in "-_."
  }

  /** Clean text of fitting length is returned as it is, without encoding. */
  function EncodeContentId(value: Option<string>, maxLen: int, digest: string -> Digest): Identifier {
    if value.None? || value.value == [] then Id(EMPTY_SENTINEL)
    else if (forall c :: c in value.value ==> IsClean(c)) && |value.value| <= maxLen then Id(value.value)
    else EncodeIdentifier(value, maxLen, IsClean, EMPTY_SENTINEL, digest)
  }

  /** A letter or digit of ASCII, a hyphen, an underscore or a dot. */
  ghost predicate Plain(c: char) {
    'A' <= c <= 'Z' || 'a' <= c <= 'z' || '0' <= c <= '9' || c == '-' || c == '_' || c == '.'
  }

  lemma CleanIsKept(text: string)
    requires forall c :: c in text ==> IsClean(c)
    ensures Encode(text, IsClean) == text
  {
    assert !IsClean('%');
    KeptStays(text, IsClean);
  }

  /** A content id before shortening spells its text in letters, digits, hyphen, underscore and dot, and
      escapes; a text of these comes out as it is. */
  lemma CleanSpells(text: string)
    ensures var id := Encode(text, IsClean);
      && (forall i :: 0 <= i < |id| ==> Escaped(id, i) || (Plain(id[i]) && id[i] in text))
      && ((forall c :: c in text ==> Plain(c)) ==> id == text)
  {
    EncodeSpells(text, IsClean);
    if forall c :: c in text ==> Plain(c) {
      CleanIsKept(text);
    }
  }

  /** The fast path changes nothing. */
  lemma ContentIdIsIdentifier(value: Option<string>, maxLen: int, digest: string -> Digest)
    ensures EncodeContentId(value, maxLen, digest) == EncodeIdentifier(value, maxLen, IsClean, EMPTY_SENTINEL, digest)
  {
    if value.Some? && value.value != [] && forall c :: c in value.value ==> IsClean(c) {
      CleanIsKept(value.value);
    }
  }

  // ---- file names ----

  /** The characters no file name may hold, in the order they are replaced. */
  const FS_CHARS := ['/', '\\', '\0', '*', '?', '[', ']', ':']

  function ReplaceChar(s: string, c: char, replacement: string): string {
    if s == [] then [] else (if s[0] == c then replacement else [s[0]]) + ReplaceChar(s[1..], c, replacement)
  }

  /** The replacement of a hazard character: its single byte as a triplet. */
  function FsEscape(c: char): string
    requires c in FS_CHARS
  {
    match c
    case '/' => "%2F"
    case '\\' => "%5C"
    case '\0' => "%00"
    case '*' => "%2A"
    case '?' => "%3F"
    case '[' => "%5B"
    case ']' => "%5D"
    case _ => "%3A"
  }

  /** Characters that survive once the first `n` hazards are replaced. */
  function Spared(n: nat): char -> bool
    requires n <= |FS_CHARS|
  {
    c => c !in FS_CHARS[..n]
  }

  lemma FsEscapeIsTriplets(c: char)
    requires c in FS_CHARS
    ensures FsEscape(c) == Triplets(Utf8(c))
  {
    var b := Utf8(c);
    assert b == [c as int] && b[1..] == [];
    assert Triplets(b) == Triplet(b[0]) + [];
  }

  lemma {:induction false} ReplaceAppend(a: string, b: string, c: char, replacement: string)
    ensures ReplaceChar(a + b, c, replacement) == ReplaceChar(a, c, replacement) + ReplaceChar(b, c, replacement)
  {
    if a == [] {
      assert a + b == b;
    } else {
      ReplaceAppend(a[1..], b, c, replacement);
      assert (a + b)[0] == a[0] && (a + b)[1..] == a[1..] + b;
      var head := if a[0] == c then replacement else [a[0]];
      Regrouped(head, ReplaceChar(a[1..], c, replacement), ReplaceChar(b, c, replacement));
    }
  }

  lemma ReplaceAbsent(s: string, c: char, replacement: string)
    requires c !in s
    ensures ReplaceChar(s, c, replacement) == s
  {
    if s != [] {
      assert s[0] in s;
      ReplaceAbsent(s[1..], c, replacement);
      assert [s[0]] + s[1..] == s;
    }
  }

  /** An escape is made of the escape character and hexadecimal digits. */
  lemma TripletChars(bytes: seq<Byte>)
    ensures forall c :: c in Triplets(bytes) ==> c == '%' || IsHex(c)
  {
    if bytes != [] {
      TripletChars(bytes[1..]);
      var t := Triplet(bytes[0]);
      assert forall c :: c in t ==> c == t[0] || c == t[1] || c == t[2];
    }
  }

  lemma HazardsAreNoEscapeChars(n: nat)
    requires n < |FS_CHARS|
    ensures FS_CHARS[n] != '%' && !IsHex(FS_CHARS[n]) && FS_CHARS[n] !in FS_CHARS[..n]
  {
  }

  /** One more replacement: it hits the hazard itself and no character of an earlier escape. */
  lemma {:induction false} ReplaceStep(uid: string, n: nat)
    requires n < |FS_CHARS|
    ensures ReplaceChar(Encode(uid, Spared(n)), FS_CHARS[n], FsEscape(FS_CHARS[n])) == Encode(uid, Spared(n + 1))
  {
    if uid != [] {
      ReplaceStep(uid[1..], n);
      ReplaceAppend(Code(uid[0], Spared(n)), Encode(uid[1..], Spared(n)), FS_CHARS[n], FsEscape(FS_CHARS[n]));
      ReplaceCode(uid[0], n);
    }
  }

  /** On one code word. */
  lemma ReplaceCode(c: char, n: nat)
    requires n < |FS_CHARS|
    ensures ReplaceChar(Code(c, Spared(n)), FS_CHARS[n], FsEscape(FS_CHARS[n])) == Code(c, Spared(n + 1))
  {
    var h := FS_CHARS[n];
    HazardsAreNoEscapeChars(n);
    assert FS_CHARS[..n + 1] == FS_CHARS[..n] + [h];
    if c == h {
      FsEscapeIsTriplets(h);
      assert ReplaceChar([h], h, FsEscape(h)) == FsEscape(h) + [];
    } else {
      TripletChars(Utf8(c));
      PercentTriplet();
      TripletChars(Utf8('%'));
      ReplaceAbsent(Code(c, Spared(n)), h, FsEscape(h));
    }
  }

  lemma FirstReplacement(uid: string)
    ensures ReplaceChar(uid, '%', "%25") == Encode(uid, Spared(0))
  {
    if uid != [] {
      FirstReplacement(uid[1..]);
      assert FS_CHARS[..0] == [];
    }
  }

  predicate IsSafe(c: char) { c !in FS_CHARS }

  lemma SparedAllIsSafe(uid: string)
    ensures Encode(uid, Spared(|FS_CHARS|)) == Encode(uid, IsSafe)
  {
    if uid != [] {
      SparedAllIsSafe(uid[1..]);
      assert FS_CHARS[..|FS_CHARS|] == FS_CHARS;
    }
  }

  /** The replacements one after the other are one pass of percent encoding. */
  method EncodeJobUidFilename(uid: string) returns (out: string)
    ensures out == Encode(uid, IsSafe)
  {
    out := ReplaceChar(uid, '%', "%25");
    FirstReplacement(uid);
    for i := 0 to |FS_CHARS|
      invariant out == Encode(uid, Spared(i))
    {
      ReplaceStep(uid, i);
      out := ReplaceChar(out, FS_CHARS[i], FsEscape(FS_CHARS[i]));
    }
    SparedAllIsSafe(uid);
  }

  /** What no file name may hold on any system the engine runs on. */
  ghost predicate Hazard(c: char) {
    c == '/' || c == '\\' || c == '\0' || c == '*' || c == '?' || c == '[' || c == ']' || c == ':'
  }

  /** File names are injective and hold no hazard character; a uid without one, and without the escape
      character, is its own file name. */
  lemma FilenameIsSafe(uid: string)
    ensures forall c :: c in Encode(uid, IsSafe) ==> !Hazard(c)
    ensures Decode(Encode(uid, IsSafe)) == Some(uid)
    ensures (forall c :: c in uid ==> !Hazard(c) && c != '%') ==> Encode(uid, IsSafe) == uid
  {
    DecodeEncode(uid, IsSafe);
    NoHazards(uid);
    forall c ensures Hazard(c) <==> c in FS_CHARS {
      HazardsAreListed(c);
    }
    if forall c :: c in uid ==> !Hazard(c) && c != '%' {
      KeptStays(uid, IsSafe);
    }
  }

  lemma HazardsAreListed(c: char)
    ensures Hazard(c) <==> c in FS_CHARS
  {
    assert FS_CHARS == ['/', '\\', '\0', '*', '?', '[', ']', ':'];
  }

  lemma {:induction false} NoHazards(uid: string)
    ensures forall c :: c in Encode(uid, IsSafe) ==> c !in FS_CHARS
  {
    if uid != [] {
      NoHazards(uid[1..]);
      TripletChars(Utf8(uid[0]));
      EscapeCharsAreSafe();
      assert forall x :: x in "%25" ==> x == '%' || IsHex(x);
    }
  }

  lemma EscapeCharsAreSafe()
    ensures forall c :: c == '%' || IsHex(c) ==> c !in FS_CHARS
  {
  }
}
