/** S3 object keys of trace segments (dial9-destinations-s3/src/segment_object_key.rs, s3.rs). */
module HiveKey {
  import opened Wrappers

  // ----- Escaping -----

  predicate NeedsHiveEscape(c: char) {
    || c < ' ' || c == 0x7f as char
    || c in "\"#%'*/:=?\\{[]^"
  }

  const HEX: string := "0123456789ABCDEF"

  /** One character as it appears in an escaped value. */
  function EscapedChar(c: char): string {
    if NeedsHiveEscape(c) then ['%', HEX[c as int / 16], HEX[c as int % 16]] else [c]
  }

  function Escaped(value: string): string {
    if |value| == 0 then "" else Escaped(value[..|value| - 1]) + EscapedChar(value[|value| - 1])
  }

  method HiveEscape(value: string) returns (escaped: string)
    ensures escaped == Escaped(value)
  {
    escaped := "";
    for i := 0 to |value|
      invariant escaped == Escaped(value[..i])
    {
      var c := value[i];
      assert value[..i + 1][..i] == value[..i];
      if NeedsHiveEscape(c) {
        var byte := c as int;
        escaped := escaped + ['%'];
        escaped := escaped + [HEX[byte / 16]];
        escaped := escaped + [HEX[byte % 16]];
      } else {
        escaped := escaped + [c];
      }
    }
    assert value[..|value|] == value;
  }

  lemma HighAndLow(n: nat, high: nat, low: nat)
    requires n == 16 * high + low && low < 16
    ensures n / 16 == high && n % 16 == low
  {
  }

  lemma EscapeIs(c: char, high: nat, low: nat)
    requires NeedsHiveEscape(c) && c as int == 16 * high + low && high < 16 && low < 16
    ensures EscapedChar(c) == ['%', "0123456789ABCDEF"[high], "0123456789ABCDEF"[low]]
  {
    hide NeedsHiveEscape, HEX;
    HighAndLow(c as int, high, low);
    HexDigits();
  }

  lemma HexDigits()
    ensures HEX == "0123456789ABCDEF"
  {
  }

  /** Fourteen punctuation characters are escaped, these eight and the six below. */
  lemma PunctuationEscapes()
    ensures EscapedChar('"') == "%22" && EscapedChar('#') == "%23" && EscapedChar('%') == "%25" && EscapedChar('\'') == "%27"
    ensures EscapedChar('*') == "%2A" && EscapedChar('/') == "%2F" && EscapedChar(':') == "%3A" && EscapedChar('=') == "%3D"
  {
    hide EscapedChar;
    EscapeIs('"', 2, 2);
    EscapeIs('#', 2, 3);
    EscapeIs('%', 2, 5);
    EscapeIs('\'', 2, 7);
    EscapeIs('*', 2, 10);
    EscapeIs('/', 2, 15);
    EscapeIs(':', 3, 10);
    EscapeIs('=', 3, 13);
  }

  lemma BracketEscapes()
    ensures EscapedChar('?') == "%3F" && EscapedChar('\\') == "%5C" && EscapedChar('{') == "%7B"
    ensures EscapedChar('[') == "%5B" && EscapedChar(']') == "%5D" && EscapedChar('^') == "%5E"
  {
    hide EscapedChar;
    EscapeIs('?', 3, 15);
    EscapeIs('\\', 5, 12);
    EscapeIs('{', 7, 11);
    EscapeIs('[', 5, 11);
    EscapeIs(']', 5, 13);
    EscapeIs('^', 5, 14);
  }

  /** So are the controls and DEL; every other character stands for itself. */
  lemma OtherEscapes(c: char)
    ensures c < ' ' ==>
      EscapedChar(c) == ['%', if (c as int) < 16 then '0' else '1', "0123456789ABCDEF"[c as int % 16]]
    ensures c == 0x7f as char ==> EscapedChar(c) == "%7F"
    ensures c >= ' ' && c != 0x7f as char && c !in {'"', '#', '%', '\'', '*', '/', ':', '=', '?', '\\', '{', '[', ']', '^'} ==>
      EscapedChar(c) == [c]
  {
    if c < ' ' {
      EscapeIs(c, c as int / 16, c as int % 16);
    } else if c == 0x7f as char {
      EscapeIs(c, 7, 15);
    }
  }

  // ----- Undoing it -----

  function HexValue(c: char): nat {
    if '0' <= c <= '9' then c as int - '0' as int
    else if 'A' <= c <= 'F' then c as int - 'A' as int + 10
    else 0
  }

  /** Read `%XY` as one character and everything else as it is. */
  function Unescaped(escaped: string): string {
    if |escaped| == 0 then ""
    else if escaped[0] == '%' && |escaped| >= 3 then
      [(16 * (HexValue(escaped[1]) % 8) + HexValue(escaped[2]) % 16) as char] + Unescaped(escaped[3..])
    else [escaped[0]] + Unescaped(escaped[1..])
  }

  lemma HexRoundTrip(n: nat)
    requires n < 16
    ensures HexValue(HEX[n]) == n
  {
  }

  lemma EscapedNext(value: string)
    requires |value| > 0
    ensures Escaped(value) == Escaped(value[..|value| - 1]) + EscapedChar(value[|value| - 1])
  {
  }

  lemma EscapedOne(value: string)
    requires |value| == 1
    ensures Escaped(value) == EscapedChar(value[0]) && Escaped(value[1..]) == ""
  {
    assert value[..0] == "" && value[1..] == "";
  }

  lemma Concatenation(a: string, b: string, c: string)
    ensures a + b + c == a + (b + c)
  {
  }

  lemma {:induction false} EscapedHead(value: string)
    requires |value| > 0
    ensures Escaped(value) == EscapedChar(value[0]) + Escaped(value[1..])
  {
    hide *;
    var n := |value| - 1;
    if n == 0 {
      EscapedOne(value);
    } else {
      EscapedHead(value[..n]);
      EscapedNext(value);
      EscapedNext(value[1..]);
      assert value[..n][1..] == value[1..][..n - 1] && value[1..][n - 1] == value[n] && value[..n][0] == value[0];
      Concatenation(EscapedChar(value[0]), Escaped(value[1..][..n - 1]), EscapedChar(value[n]));
    }
  }

  lemma EscapeRead(escaped: string)
    requires |escaped| >= 3 && escaped[0] == '%'
    ensures Unescaped(escaped)
         == [(16 * (HexValue(escaped[1]) % 8) + HexValue(escaped[2]) % 16) as char] + Unescaped(escaped[3..])
  {
  }

  /** The two digits of an escape give the character back. */
  lemma DigitsRead(c: char)
    requires NeedsHiveEscape(c)
    ensures EscapedChar(c) == ['%', HEX[c as int / 16], HEX[c as int % 16]]
    ensures (16 * (HexValue(HEX[c as int / 16]) % 8) + HexValue(HEX[c as int % 16]) % 16) as char == c
  {
    EscapesAreAscii(c);
    hide HexValue, NeedsHiveEscape, HEX;
    HexRoundTrip(c as int / 16);
    HexRoundTrip(c as int % 16);
  }

  lemma EscapesAreAscii(c: char)
    requires NeedsHiveEscape(c)
    ensures c as int < 128
  {
  }

  lemma UnescapeEscape(c: char, rest: string)
    requires NeedsHiveEscape(c)
    ensures Unescaped(EscapedChar(c) + rest) == [c] + Unescaped(rest)
  {
    DigitsRead(c);
    hide *;
    var escaped := EscapedChar(c) + rest;
    assert escaped[3..] == rest;
    assert escaped[0] == '%' && escaped[1] == EscapedChar(c)[1] && escaped[2] == EscapedChar(c)[2];
    EscapeRead(escaped);
  }

  lemma UnescapePlain(c: char, rest: string)
    requires !NeedsHiveEscape(c)
    ensures Unescaped([c] + rest) == [c] + Unescaped(rest)
  {
    assert ([c] + rest)[1..] == rest;
  }

  /** Unescaping gives back every string. */
  lemma {:induction false} UnescapeUndoes(value: string)
    ensures Unescaped(Escaped(value)) == value
  {
    if |value| != 0 {
      var c := value[0];
      var rest := Escaped(value[1..]);
      EscapedHead(value);
      UnescapeUndoes(value[1..]);
      hide Unescaped;
      if NeedsHiveEscape(c) {
        UnescapeEscape(c, rest);
      } else {
        UnescapePlain(c, rest);
      }
      assert value == [c] + value[1..];
    }
  }

  /** An escaped value contains no character that needs escaping, except the `%` that starts an escape. */
  lemma {:induction false} EscapedIsSafe(value: string)
    ensures forall i :: 0 <= i < |Escaped(value)| ==> Escaped(value)[i] == '%' || !NeedsHiveEscape(Escaped(value)[i])
    ensures '/' !in Escaped(value) && '=' !in Escaped(value)
  {
    if |value| != 0 {
      EscapedIsSafe(value[..|value| - 1]);
      HexIsSafe();
    }
  }

  lemma HexIsSafe()
    ensures forall i :: 0 <= i < 16 ==> !NeedsHiveEscape(HEX[i])
  {
    assert HEX == ['0', '1', '2', '3', '4', '5', '6', '7', '8', '9', 'A', 'B', 'C', 'D', 'E', 'F'];
  }

  // ----- Keys -----

  /** The six parts of a key, apart from the prefix. */
  datatype Parts = Parts(date: string, service: string, time: string, instance: string, boot: string, filename: string)

  function FromBoot(p: Parts): string { "boot=" + Escaped(p.boot) + "/" + p.filename }
  function FromInstance(p: Parts): string { "instance=" + Escaped(p.instance) + "/" + FromBoot(p) }
  function FromTime(p: Parts): string { "time=" + Escaped(p.time) + "/" + FromInstance(p) }
  function FromService(p: Parts): string { "service=" + Escaped(p.service) + "/" + FromTime(p) }

  /** The layout `version=1/date=…/service=…/time=…/instance=…/boot=…/filename`, values escaped. */
  function Suffix(p: Parts): string { "version=1/date=" + Escaped(p.date) + "/" + FromService(p) }

  function SegmentKey(prefix: Option<string>, p: Parts): string {
    match prefix
    case Some(start) => start + "/" + Suffix(p)
    case None => Suffix(p)
  }

  /** Moving a label's slash to the label. */
  lemma Labelled(a: string, key: string, slashed: string, value: string, rest: string)
    requires slashed == "/" + key
    ensures a + "/" + (key + value + "/" + rest) == a + slashed + value + "/" + rest
  {
  }

  /** Keys start with the version and the date, then the service and the time: listings are scoped by them. */
  lemma SuffixLayout(p: Parts)
    ensures Suffix(p)
         == "version=1/date=" + Escaped(p.date) + "/service=" + Escaped(p.service) + "/time=" + Escaped(p.time)
            + "/instance=" + Escaped(p.instance) + "/boot=" + Escaped(p.boot) + "/" + p.filename
  {
    hide Escaped;
    var dated := "version=1/date=" + Escaped(p.date);
    var served := dated + "/service=" + Escaped(p.service);
    var timed := served + "/time=" + Escaped(p.time);
    var placed := timed + "/instance=" + Escaped(p.instance);
    Labelled(dated, "service=", "/service=", Escaped(p.service), FromTime(p));
    Labelled(served, "time=", "/time=", Escaped(p.time), FromInstance(p));
    Labelled(timed, "instance=", "/instance=", Escaped(p.instance), FromBoot(p));
    Labelled(placed, "boot=", "/boot=", Escaped(p.boot), p.filename);
  }

  /** A key is this layout, behind the prefix and a slash if there is one. */
  lemma KeyLayout(prefix: Option<string>, p: Parts)
    ensures var layout := "version=1/date=" + Escaped(p.date) + "/service=" + Escaped(p.service) + "/time=" + Escaped(p.time)
        + "/instance=" + Escaped(p.instance) + "/boot=" + Escaped(p.boot) + "/" + p.filename;
      SegmentKey(prefix, p) == if prefix.Some? then prefix.value + "/" + layout else layout
  {
    hide Escaped, Suffix;
    SuffixLayout(p);
  }

  /** A slash splits a string into a slash-free start and the rest in one way only. */
  lemma SplitOnce(a: string, x: string, b: string, y: string)
    requires '/' !in a && '/' !in b && a + "/" + x == b + "/" + y
    ensures a == b && x == y
  {
    var s := a + "/" + x;
    assert forall i :: 0 <= i < |a| ==> s[i] == a[i];
    assert forall i :: 0 <= i < |b| ==> s[i] == b[i];
    assert s[|a|] == '/' && s[|b|] == '/';
    assert a == s[..|a|] && b == s[..|b|];
    assert x == s[|a| + 1..] && y == s[|b| + 1..];
  }

  /** What two equal strings that start alike have in common after it. */
  lemma SameRest(start: string, x: string, y: string)
    requires start + x == start + y
    ensures x == y
  {
    assert x == (start + x)[|start|..] && y == (start + y)[|start|..];
  }

  /** The same label, then an escaped value up to the next slash: the value and the rest are determined. */
  lemma FieldDetermined(start: string, a: string, x: string, b: string, y: string)
    requires start + Escaped(a) + "/" + x == start + Escaped(b) + "/" + y
    ensures a == b && x == y
  {
    assert start + Escaped(a) + "/" + x == start + (Escaped(a) + "/" + x);
    assert start + Escaped(b) + "/" + y == start + (Escaped(b) + "/" + y);
    hide *;
    EscapedIsSafe(a);
    EscapedIsSafe(b);
    SameRest(start, Escaped(a) + "/" + x, Escaped(b) + "/" + y);
    SplitOnce(Escaped(a), x, Escaped(b), y);
    UnescapeUndoes(a);
    UnescapeUndoes(b);
  }

  /** For a fixed prefix, different parts give different keys, whatever the values and the filename contain. */
  lemma KeyIsInjective(prefix: Option<string>, p: Parts, q: Parts)
    ensures SegmentKey(prefix, p) == SegmentKey(prefix, q) <==> p == q
  {
    if SegmentKey(prefix, p) == SegmentKey(prefix, q) {
      if prefix.Some? {
        SameRest(prefix.value + "/", Suffix(p), Suffix(q));
      }
      hide Escaped;
      FieldDetermined("version=1/date=", p.date, FromService(p), q.date, FromService(q));
      FieldDetermined("service=", p.service, FromTime(p), q.service, FromTime(q));
      FieldDetermined("time=", p.time, FromInstance(p), q.time, FromInstance(q));
      FieldDetermined("instance=", p.instance, FromBoot(p), q.instance, FromBoot(q));
      FieldDetermined("boot=", p.boot, p.filename, q.boot, q.filename);
    }
  }

  // ----- Segment filenames -----

  function Digit(d: nat): char
    requires d < 10
  {
    ('0' as int + d) as char
  }

  function Decimal(n: nat): (s: string)
    ensures |s| > 0 && forall i :: 0 <= i < |s| ==> '0' <= s[i] <= '9'
  {
    if n < 10 then [Digit(n)] else Decimal(n / 10) + [Digit(n % 10)]
  }

  function Number(s: string): int {
    if |s| == 0 then 0 else 10 * Number(s[..|s| - 1]) + (s[|s| - 1] as int - '0' as int)
  }

  lemma {:induction false} DecimalReads(n: nat)
    ensures Number(Decimal(n)) == n
    ensures n > 0 ==> Decimal(n)[0] != '0'
  {
    if n >= 10 {
      DecimalReads(n / 10);
      assert Decimal(n)[..|Decimal(n)| - 1] == Decimal(n / 10);
    } else {
      assert Decimal(n)[..0] == "";
    }
  }

  function Extension(gzip: bool): string {
    if gzip then ".bin.gz" else ".bin"
  }

  function Ending(index: nat, gzip: bool): string {
    "-" + (Decimal(index) + Extension(gzip))
  }

  /** The name of a sealed segment's object, `epoch-index.bin` or `epoch-index.bin.gz`. */
  function Filename(epoch: nat, index: nat, gzip: bool): string {
    Decimal(epoch) + Ending(index, gzip)
  }

  /** The epoch, a dash, the index, and the extension that tells whether the object is compressed. */
  lemma FilenameLayout(epoch: nat, index: nat, gzip: bool)
    ensures Filename(epoch, index, gzip) == Decimal(epoch) + "-" + Decimal(index) + (if gzip then ".bin.gz" else ".bin")
  {
    hide Decimal;
  }

  /** Digits up to the first other character. */
  lemma DigitsDetermined(a: string, x: string, b: string, y: string)
    requires forall i :: 0 <= i < |a| ==> '0' <= a[i] <= '9'
    requires forall i :: 0 <= i < |b| ==> '0' <= b[i] <= '9'
    requires |x| > 0 && |y| > 0 && !('0' <= x[0] <= '9') && !('0' <= y[0] <= '9')
    requires a + x == b + y
    ensures a == b && x == y
  {
    var s := a + x;
    assert forall i :: 0 <= i < |a| ==> s[i] == a[i];
    assert forall i :: 0 <= i < |b| ==> s[i] == b[i];
    assert s[|a|] == x[0] && s[|b|] == y[0];
    assert a == s[..|a|] && b == s[..|b|];
    assert x == s[|a|..] && y == s[|b|..];
  }

  /** Within one recorder, two segments share an object key only if they share epoch, index and encoding. */
  lemma FilenameIsInjective(e1: nat, i1: nat, g1: bool, e2: nat, i2: nat, g2: bool)
    ensures Filename(e1, i1, g1) == Filename(e2, i2, g2) <==> e1 == e2 && i1 == i2 && g1 == g2
  {
    if Filename(e1, i1, g1) == Filename(e2, i2, g2) {
      hide Decimal;
      DigitsDetermined(Decimal(e1), Ending(i1, g1), Decimal(e2), Ending(i2, g2));
      SameRest("-", Decimal(i1) + Extension(g1), Decimal(i2) + Extension(g2));
      DigitsDetermined(Decimal(i1), Extension(g1), Decimal(i2), Extension(g2));
      DecimalReads(e1);
      DecimalReads(e2);
      DecimalReads(i1);
      DecimalReads(i2);
    }
  }
}
