/** Version keys (registry/app/registry/semver.py): `semver_key` compares versions, and
    `sort_key` is the string the database orders by. */
module Semver {
  import opened Common
  import opened Lex
  import opened Strings

  // The tuples (0, int) and (1, str).
  datatype Part = Num(n: nat) | Text(s: string)

  // The pair (core, (tag, pre)): tag 1 and no pre parts for a release, tag 0 for a prerelease.
  datatype Key = Key(core: seq<Part>, tag: int, pre: seq<Part>)

  function PartCmp(a: Part, b: Part): Ord {
    match (a, b)
    case (Num(m), Num(n)) => IntCmp(m, n)
    case (Num(_), Text(_)) => LT
    case (Text(_), Num(_)) => GT
    case (Text(s), Text(t)) => StrCmp(s, t)
  }

  function KeyCmp(a: Key, b: Key): Ord {
    LexCmp(PartCmp, a.core, b.core).Then(IntCmp(a.tag, b.tag)).Then(LexCmp(PartCmp, a.pre, b.pre))
  }

  /* ---------- text ---------- */

  /** The text before the first hyphen. */
  function Core(version: string): string {
    if version == "" || version[0] == '-' then "" else [version[0]] + Core(version[1..])
  }

  /** The text after the first hyphen, if there is one. */
  function Pre(version: string): Option<string> {
    if version == "" then None
    else if version[0] == '-' then Some(version[1..])
    else Pre(version[1..])
  }

  predicate IsDigit(c: char) {
    '0' <= c <= '9'
  }

  // str.isdigit, on ASCII
  predicate IsDigits(p: string) {
    p != "" && forall c | c in p :: IsDigit(c)
  }

  function DigitValue(c: char): nat
    requires IsDigit(c)
  {
    c as int - '0' as int
  }

  /** int(p) */
  function IntOf(p: string): nat
    requires forall c | c in p :: IsDigit(c)
  {
    if p == "" then 0 else 10 * IntOf(p[..|p| - 1]) + DigitValue(p[|p| - 1])
  }

  function DigitChar(d: nat): (c: char)
    requires d < 10
    ensures IsDigit(c) && DigitValue(c) == d
  {
    ('0' as int + d) as char
  }

  /** str(n) */
  function Digits(n: nat): string {
    if n < 10 then [DigitChar(n)] else Digits(n / 10) + [DigitChar(n % 10)]
  }

  function Zeros(k: nat): (s: string)
    ensures |s| == k && forall c | c in s :: c == '0'
  {
    if k == 0 then "" else Zeros(k - 1) + "0"
  }

  const WIDTH: nat := 12

  /** f"{n:012d}" */
  function Padded(n: nat): string {
    var s := Digits(n);
    if |s| < WIDTH then Zeros(WIDTH - |s|) + s else s
  }

  /* ---------- the keys ---------- */

  function ParsePart(p: string): Part {
    if IsDigits(p) then Num(IntOf(p)) else Text(p)
  }

  /** A part is a number exactly if it is made of decimal digits alone, and then it is the number they
      write, most significant first; any other part stays the text it is. */
  lemma PartIsNumberIff(p: string)
    ensures ParsePart(p).Num? <==> p != "" && forall c | c in p :: c in "0123456789"
    ensures !ParsePart(p).Num? ==> ParsePart(p) == Text(p)
    ensures ParsePart(p).Num? && |p| == 1 ==> ParsePart(p).n < 10 && "0123456789"[ParsePart(p).n] == p[0]
    ensures ParsePart(p).Num? && |p| > 1 ==>
              var front, last := ParsePart(p[..|p| - 1]), ParsePart(p[|p| - 1..]);
              front.Num? && last.Num? && ParsePart(p).n == 10 * front.n + last.n
  {
    forall c: char ensures IsDigit(c) <==> c in "0123456789" {
      DigitsListed(c);
    }
    if IsDigits(p) {
      var front, last := p[..|p| - 1], p[|p| - 1..];
      assert forall c | c in front || c in last :: c in p;
      assert IntOf(last[..0]) == 0 && IntOf(last) == DigitValue(last[0]) && p[|p| - 1] == last[0];
      DigitsListed(p[0]);
    }
  }

  lemma DigitsListed(c: char)
    ensures IsDigit(c) <==> c in "0123456789"
    ensures IsDigit(c) ==> "0123456789"[DigitValue(c)] == c
  {
    var all := "0123456789";
    if IsDigit(c) {
      assert all[DigitValue(c)] == c;
    }
  }

  function ParseParts(ps: seq<string>): (r: seq<Part>)
    ensures |r| == |ps| && forall i | 0 <= i < |ps| :: r[i] == ParsePart(ps[i])
  {
    if ps == [] then [] else [ParsePart(ps[0])] + ParseParts(ps[1..])
  }

  function SemverKey(version: string): Key {
    var core := ParseParts(Split(Core(version), '.'));
    var pre := Pre(version);
    if pre.None? then Key(core, 1, []) else Key(core, 0, ParseParts(Split(pre.value, '.')))
  }

  function EncodePart(p: string): string {
    if IsDigits(p) then "n" + Padded(IntOf(p)) else "s" + p
  }

  /** "".join of the encoded parts */
  function EncodeCore(ps: seq<string>): string {
    if ps == [] then "" else EncodePart(ps[0]) + EncodeCore(ps[1..])
  }

  /** ".".join of the encoded parts */
  function EncodePre(ps: seq<string>): string
    requires |ps| >= 1
  {
    if |ps| == 1 then EncodePart(ps[0]) else EncodePart(ps[0]) + "." + EncodePre(ps[1..])
  }

  function PreTag(version: string): string {
    var pre := Pre(version);
    if pre.None? then "1" else "0" + EncodePre(Split(pre.value, '.'))
  }

  function SortKey(version: string): string {
    EncodeCore(Split(Core(version), '.')) + "#" + PreTag(version)
  }

  /* ---------- how texts come apart ---------- */

  lemma {:induction false} ReleaseText(x: string)
    requires '-' !in x
    ensures Core(x) == x && Pre(x).None?
  {
    if x != "" {
      ReleaseText(x[1..]);
      assert [x[0]] + x[1..] == x;
    }
  }

  lemma {:induction false} PrereleaseText(x: string, y: string)
    requires '-' !in x
    ensures Core(x + "-" + y) == x && Pre(x + "-" + y) == Some(y)
  {
    var s := x + "-" + y;
    if x == "" {
      assert s == "-" + y && s[1..] == y;
    } else {
      PrereleaseText(x[1..], y);
      assert s[1..] == x[1..] + "-" + y;
      assert [x[0]] + x[1..] == x;
    }
  }

  lemma {:induction false} DigitsParse(n: nat)
    ensures IsDigits(Digits(n)) && IntOf(Digits(n)) == n
  {
    if n >= 10 {
      DigitsParse(n / 10);
      assert Digits(n)[..|Digits(n)| - 1] == Digits(n / 10);
    } else {
      assert Digits(n)[..0] == "";
    }
  }

  /* ---------- the loops that build them ---------- */

  lemma {:induction false} ParsePartsSnoc(ps: seq<string>, p: string)
    ensures ParseParts(ps + [p]) == ParseParts(ps) + [ParsePart(p)]
  {
    if ps != [] {
      assert (ps + [p])[1..] == ps[1..] + [p];
      ParsePartsSnoc(ps[1..], p);
    }
  }

  lemma {:induction false} EncodeCoreSnoc(ps: seq<string>, p: string)
    ensures EncodeCore(ps + [p]) == EncodeCore(ps) + EncodePart(p)
  {
    if ps != [] {
      assert (ps + [p])[1..] == ps[1..] + [p];
      EncodeCoreSnoc(ps[1..], p);
    } else {
      assert (ps + [p])[1..] == [];
    }
  }

  lemma {:induction false} EncodePreSnoc(ps: seq<string>, p: string)
    requires ps != []
    ensures EncodePre(ps + [p]) == EncodePre(ps) + "." + EncodePart(p)
  {
    assert (ps + [p])[1..] == ps[1..] + [p];
    if |ps| > 1 {
      EncodePreSnoc(ps[1..], p);
      assert (ps + [p])[0] == ps[0];
      var a, b, c := EncodePart(ps[0]) + ".", EncodePre(ps[1..]) + ".", EncodePart(p);
      assert a + (b + c) == a + b + c;
      assert a + b == EncodePre(ps) + ".";
    } else {
      assert ps[1..] + [p] == [p];
    }
  }

  /** _parts and _pre_parts: classify the dot-separated pieces of a text. */
  method PartsOf(text: string) returns (parts: seq<Part>)
    ensures parts == ParseParts(Split(text, '.'))
  {
    parts := [];
    var pieces := Split(text, '.');
    for i := 0 to |pieces|
      invariant parts == ParseParts(pieces[..i])
    {
      ParsePartsSnoc(pieces[..i], pieces[i]);
      assert pieces[..i + 1] == pieces[..i] + [pieces[i]];
      if IsDigits(pieces[i]) {
        parts := parts + [Num(IntOf(pieces[i]))];
      } else {
        parts := parts + [Text(pieces[i])];
      }
    }
    assert pieces[..|pieces|] == pieces;
  }

  method PreSortKeyOf(pre: string) returns (key: string)
    ensures key == EncodePre(Split(pre, '.'))
  {
    var pieces := Split(pre, '.');
    key := "";
    for i := 0 to |pieces|
      invariant i == 0 ==> key == ""
      invariant i > 0 ==> key == EncodePre(pieces[..i])
    {
      assert pieces[..i + 1] == pieces[..i] + [pieces[i]];
      if i > 0 {
        EncodePreSnoc(pieces[..i], pieces[i]);
        key := key + ".";
      }
      if IsDigits(pieces[i]) {
        key := key + ("n" + Padded(IntOf(pieces[i])));
      } else {
        key := key + ("s" + pieces[i]);
      }
    }
    assert pieces[..|pieces|] == pieces;
  }

  method SortKeyOf(version: string) returns (key: string)
    ensures key == SortKey(version)
  {
    var pieces := Split(Core(version), '.');
    var joined := "";
    for i := 0 to |pieces|
      invariant joined == EncodeCore(pieces[..i])
    {
      EncodeCoreSnoc(pieces[..i], pieces[i]);
      assert pieces[..i + 1] == pieces[..i] + [pieces[i]];
      if IsDigits(pieces[i]) {
        joined := joined + ("n" + Padded(IntOf(pieces[i])));
      } else {
        joined := joined + ("s" + pieces[i]);
      }
    }
    assert pieces[..|pieces|] == pieces;
    var pre := Pre(version);
    if pre.None? {
      key := joined + "#" + "1";
    } else {
      var preKey := PreSortKeyOf(pre.value);
      key := joined + "#" + ("0" + preKey);
    }
  }
}
