/** On which versions `sort_key` orders like `semver_key`. */
module SortKeyOrder {
  import opened Common
  import opened Lex
  import opened Strings
  import opened Semver

  const LIMIT: nat := 1_000_000_000_000  // 10^12, the first number wider than the padding

  /* ---------- padded numbers ---------- */

  function Pow10(k: nat): (p: nat)
    ensures p >= 1
  {
    if k == 0 then 1 else 10 * Pow10(k - 1)
  }

  /** n in decimal with exactly k digits. */
  function Fixed(n: nat, k: nat): (s: string)
    ensures |s| == k
  {
    if k == 0 then "" else Fixed(n / 10, k - 1) + [DigitChar(n % 10)]
  }

  lemma {:induction false} FixedIsPadded(n: nat, k: nat)
    requires n < Pow10(k) && k >= 1
    ensures |Digits(n)| <= k
    ensures Fixed(n, k) == Zeros(k - |Digits(n)|) + Digits(n)
  {
    if n < 10 {
      FixedZero(k - 1);
    } else {
      FixedIsPadded(n / 10, k - 1);
      var z, d := Zeros(k - 1 - |Digits(n / 10)|), Digits(n / 10);
      assert z + d + [DigitChar(n % 10)] == z + (d + [DigitChar(n % 10)]);
    }
  }

  lemma {:induction false} FixedZero(k: nat)
    ensures Fixed(0, k) == Zeros(k)
  {
    if k > 0 {
      FixedZero(k - 1);
    }
  }

  lemma {:induction false} FixedOrder(m: nat, n: nat, k: nat)
    requires m < Pow10(k) && n < Pow10(k)
    ensures StrCmp(Fixed(m, k), Fixed(n, k)) == IntCmp(m, n)
  {
    if k > 0 {
      FixedOrder(m / 10, n / 10, k - 1);
      var c, d := DigitChar(m % 10), DigitChar(n % 10);
      LexBlocks(Fixed(m / 10, k - 1), Fixed(n / 10, k - 1), [c], [d]);
      assert [c] + "" == [c] && [d] + "" == [d];
      StrCons(c, "", d, "");
      assert CharCmp(c, d) == IntCmp(m % 10, n % 10);
    }
  }

  /** Below 10^12 padded numbers have one width and compare like the numbers. */
  lemma PaddedOrder(m: nat, n: nat)
    requires m < LIMIT && n < LIMIT
    ensures |Padded(m)| == |Padded(n)| == WIDTH
    ensures StrCmp(Padded(m), Padded(n)) == IntCmp(m, n)
  {
    assert Pow10(12) == LIMIT by {
      assert Pow10(3) == 1000;
      assert Pow10(6) == 1_000_000;
      assert Pow10(9) == 1_000_000_000;
    }
    PaddedIsFixed(m);
    PaddedIsFixed(n);
    FixedOrder(m, n, 12);
  }

  lemma PaddedIsFixed(n: nat)
    requires n < Pow10(12)
    ensures Padded(n) == Fixed(n, 12)
  {
    FixedIsPadded(n, 12);
    PaddedText(Digits(n));
  }

  lemma PaddedText(s: string)
    requires |s| <= WIDTH
    ensures (if |s| < WIDTH then Zeros(WIDTH - |s|) + s else s) == Zeros(WIDTH - |s|) + s
  {
  }

  /* ---------- encoded parts ---------- */

  predicate PartOk(p: string, bound: char) {
    if IsDigits(p) then IntOf(p) < LIMIT else Above(p, bound)
  }

  ghost predicate PartsOk(ps: seq<string>, bound: char) {
    forall i | 0 <= i < |ps| :: PartOk(ps[i], bound)
  }

  lemma TaggedBlocks(tag: char, x: string, y: string, r: string, t: string)
    requires |x| == |y|
    ensures StrCmp([tag] + x + r, [tag] + y + t) == StrCmp(x, y).Then(StrCmp(r, t))
  {
    assert [tag] + x + r == [tag] + (x + r) && [tag] + y + t == [tag] + (y + t);
    StrCons(tag, x + r, tag, y + t);
    LexBlocks(x, y, r, t);
  }

  lemma TaggedWords(tag: char, x: string, y: string, r: string, t: string, bound: char)
    requires Above(x, bound) && Above(y, bound) && StartsLow(r, bound) && StartsLow(t, bound)
    ensures StrCmp([tag] + x + r, [tag] + y + t) == StrCmp(x, y).Then(StrCmp(r, t))
  {
    assert [tag] + x + r == [tag] + (x + r) && [tag] + y + t == [tag] + (y + t);
    StrCons(tag, x + r, tag, y + t);
    LexWords(x, y, r, t, bound);
  }

  lemma TagsDiffer(a: char, x: string, b: char, y: string, r: string, t: string)
    requires a != b
    ensures StrCmp([a] + x + r, [b] + y + t) == CharCmp(a, b)
  {
    assert [a] + x + r == [a] + (x + r) && [b] + y + t == [b] + (y + t);
    StrCons(a, x + r, b, y + t);
  }

  /** An encoded part followed by something that starts at or below `bound` is compared as a part first. */
  lemma PartThenRest(p: string, q: string, r: string, t: string, bound: char)
    requires PartOk(p, bound) && PartOk(q, bound) && StartsLow(r, bound) && StartsLow(t, bound)
    ensures StrCmp(EncodePart(p) + r, EncodePart(q) + t) == PartCmp(ParsePart(p), ParsePart(q)).Then(StrCmp(r, t))
  {
    if IsDigits(p) && IsDigits(q) {
      var m, n := IntOf(p), IntOf(q);
      PaddedOrder(m, n);
      TaggedBlocks('n', Padded(m), Padded(n), r, t);
    } else if IsDigits(p) {
      TagsDiffer('n', Padded(IntOf(p)), 's', q, r, t);
    } else if IsDigits(q) {
      TagsDiffer('s', p, 'n', Padded(IntOf(q)), r, t);
    } else {
      TaggedWords('s', p, q, r, t, bound);
    }
  }

  function CoreText(ps: seq<string>, r: string): string {
    EncodeCore(ps) + "#" + r
  }

  /** The joined core parts, ended by '#'. Nothing separates them, so their text must lie above 's'. */
  lemma {:induction false} CoreOrder(ps: seq<string>, qs: seq<string>, r: string, t: string)
    requires PartsOk(ps, 's') && PartsOk(qs, 's')
    ensures StrCmp(CoreText(ps, r), CoreText(qs, t))
            == LexCmp(PartCmp, ParseParts(ps), ParseParts(qs)).Then(StrCmp(r, t))
  {
    if ps != [] && qs != [] {
      CoreOrder(ps[1..], qs[1..], r, t);
      CoreStep(ps, qs, r, t);
    } else if ps == [] && qs == [] {
      StrCons('#', r, '#', t);
    } else {
      CoreEnds(ps, r);
      CoreEnds(qs, t);
    }
  }

  lemma CoreEnds(ps: seq<string>, r: string)
    ensures CoreText(ps, r) != "" && (ps == [] ==> CoreText(ps, r)[0] == '#')
    ensures ps != [] ==> CoreText(ps, r)[0] == EncodePart(ps[0])[0]
    ensures ps != [] ==> CoreText(ps, r)[0] in "ns" && CoreText(ps, r) == EncodePart(ps[0]) + CoreText(ps[1..], r)
  {
    if ps != [] {
      Regroup(EncodePart(ps[0]), EncodeCore(ps[1..]), r);
    }
  }

  lemma Regroup(a: string, b: string, r: string)
    requires a != ""
    ensures (a + b) + "#" + r == a + (b + "#" + r) && ((a + b) + "#" + r)[0] == a[0]
  {
  }

  lemma CoreStep(ps: seq<string>, qs: seq<string>, r: string, t: string)
    requires ps != [] && qs != [] && PartsOk(ps, 's') && PartsOk(qs, 's')
    requires StrCmp(CoreText(ps[1..], r), CoreText(qs[1..], t))
             == LexCmp(PartCmp, ParseParts(ps[1..]), ParseParts(qs[1..])).Then(StrCmp(r, t))
    ensures StrCmp(CoreText(ps, r), CoreText(qs, t))
            == LexCmp(PartCmp, ParseParts(ps), ParseParts(qs)).Then(StrCmp(r, t))
  {
    CoreEnds(ps, r);
    CoreEnds(qs, t);
    CoreStartsLow(ps[1..], r);
    CoreStartsLow(qs[1..], t);
    PartThenRest(ps[0], qs[0], CoreText(ps[1..], r), CoreText(qs[1..], t), 's');
    PartsHead(ps, qs);
  }

  lemma CoreStartsLow(ps: seq<string>, r: string)
    ensures StartsLow(CoreText(ps, r), 's')
  {
    CoreEnds(ps, r);
  }

  lemma PartsHead(ps: seq<string>, qs: seq<string>)
    requires ps != [] && qs != []
    ensures LexCmp(PartCmp, ParseParts(ps), ParseParts(qs))
            == PartCmp(ParsePart(ps[0]), ParsePart(qs[0]))
               .Then(LexCmp(PartCmp, ParseParts(ps[1..]), ParseParts(qs[1..])))
  {
    ParseTail(ps);
    ParseTail(qs);
  }

  lemma ParseTail(ps: seq<string>)
    requires ps != []
    ensures ParseParts(ps)[0] == ParsePart(ps[0]) && ParseParts(ps)[1..] == ParseParts(ps[1..])
  {
  }

  function PreTail(ps: seq<string>): string
    requires |ps| >= 1
  {
    if |ps| == 1 then "" else "." + EncodePre(ps[1..])
  }

  /** The joined prerelease parts, separated by dots, so their text must lie above '.'. */
  lemma {:induction false} PreOrder(ps: seq<string>, qs: seq<string>)
    requires |ps| >= 1 && |qs| >= 1 && PartsOk(ps, '.') && PartsOk(qs, '.')
    ensures StrCmp(EncodePre(ps), EncodePre(qs)) == LexCmp(PartCmp, ParseParts(ps), ParseParts(qs))
  {
    var r, t := PreTail(ps), PreTail(qs);
    assert EncodePre(ps) == EncodePart(ps[0]) + r && EncodePre(qs) == EncodePart(qs[0]) + t;
    PartThenRest(ps[0], qs[0], r, t, '.');
    ParseTail(ps);
    ParseTail(qs);
    if |ps| > 1 && |qs| > 1 {
      PreOrder(ps[1..], qs[1..]);
      StrCons('.', EncodePre(ps[1..]), '.', EncodePre(qs[1..]));
    }
  }

  lemma TagOrder(v: string, w: string)
    requires Pre(v).Some? ==> PartsOk(Split(Pre(v).value, '.'), '.')
    requires Pre(w).Some? ==> PartsOk(Split(Pre(w).value, '.'), '.')
    ensures StrCmp(PreTag(v), PreTag(w)) ==
            IntCmp(SemverKey(v).tag, SemverKey(w).tag).Then(LexCmp(PartCmp, SemverKey(v).pre, SemverKey(w).pre))
  {
    if Pre(v).Some? && Pre(w).Some? {
      var ps, qs := Split(Pre(v).value, '.'), Split(Pre(w).value, '.');
      PreOrder(ps, qs);
      StrCons('0', EncodePre(ps), '0', EncodePre(qs));
    } else if Pre(v).None? && Pre(w).None? {
      StrEqual("1");
    }
  }

  /* ---------- the embedding ---------- */

  // Numbers fit the padding; other core parts lie above 's', other prerelease parts above '.'.
  ghost predicate Regular(v: string) {
    && PartsOk(Split(Core(v), '.'), 's')
    && (Pre(v).Some? ==> PartsOk(Split(Pre(v).value, '.'), '.'))
  }

  /** `sort_key` embeds the `semver_key` order: less, equal and greater agree. */
  lemma SortKeyEmbeds(v: string, w: string)
    requires Regular(v) && Regular(w)
    ensures StrCmp(SortKey(v), SortKey(w)) == KeyCmp(SemverKey(v), SemverKey(w))
  {
    CoreOrder(Split(Core(v), '.'), Split(Core(w), '.'), PreTag(v), PreTag(w));
    TagOrder(v, w);
  }

  predicate IsAlnum(c: char) {
    IsDigit(c) || 'a' <= c <= 'z' || 'A' <= c <= 'Z'
  }

  // Numeric core, alphanumeric prerelease identifiers, numbers below 10^12.
  ghost predicate Plain(v: string) {
    && (forall p | p in Split(Core(v), '.') :: IsDigits(p) && IntOf(p) < LIMIT)
    && (Pre(v).Some? ==> forall p | p in Split(Pre(v).value, '.') ::
          (forall c | c in p :: IsAlnum(c)) && (IsDigits(p) ==> IntOf(p) < LIMIT))
  }

  lemma PlainIsRegular(v: string)
    requires Plain(v)
    ensures Regular(v)
  {
    var core := Split(Core(v), '.');
    assert forall i | 0 <= i < |core| :: core[i] in core;
    if Pre(v).Some? {
      var pre := Split(Pre(v).value, '.');
      assert forall i | 0 <= i < |pre| :: pre[i] in pre;
    }
  }

  /* ---------- exactly how far it reaches ---------- */

  predicate Admitted(p: string, alphabet: char -> bool, bound: nat) {
    if IsDigits(p) then IntOf(p) < bound else forall c | c in p :: alphabet(c)
  }

  // Versions whose non-numeric parts use the given characters and whose numbers are below `bound`.
  ghost predicate Admits(v: string, core: char -> bool, pre: char -> bool, bound: nat) {
    && (forall i | 0 <= i < |Split(Core(v), '.')| :: Admitted(Split(Core(v), '.')[i], core, bound))
    && (Pre(v).Some? ==>
          forall i | 0 <= i < |Split(Pre(v).value, '.')| :: Admitted(Split(Pre(v).value, '.')[i], pre, bound))
  }

  predicate SameOrder(v: string, w: string) {
    StrCmp(SortKey(v), SortKey(w)) == KeyCmp(SemverKey(v), SemverKey(w))
  }

  ghost predicate Embeds(core: char -> bool, pre: char -> bool, bound: nat) {
    forall v, w | Admits(v, core, pre, bound) && Admits(w, core, pre, bound) :: SameOrder(v, w)
  }

  // A hyphen or dot cannot occur in a core part, nor a dot in a prerelease part.
  predicate Occurs(c: char) {
    c != '-' && c != '.'
  }

  // With digits alone every non-empty core part is a number.
  ghost predicate SafeCore(core: char -> bool) {
    (forall c | core(c) && Occurs(c) :: IsDigit(c)) || (forall c | core(c) && Occurs(c) :: c > 's')
  }

  ghost predicate Safe(core: char -> bool, pre: char -> bool, bound: nat) {
    && SafeCore(core)
    && (forall c | pre(c) && c != '.' :: c > '.')
    && bound <= LIMIT
  }

  lemma {:induction false} NoSeparator(s: string, c: char)
    ensures forall i | 0 <= i < |Split(s, c)| :: c !in Split(s, c)[i]
  {
    if s != "" {
      NoSeparator(s[1..], c);
    }
  }

  lemma {:induction false} NoHyphenInCore(v: string)
    ensures '-' !in Core(v)
  {
    if v != "" && v[0] != '-' {
      NoHyphenInCore(v[1..]);
    }
  }

  lemma {:induction false} PiecesOf(s: string, c: char, i: nat)
    requires i < |Split(s, c)|
    ensures forall x | x in Split(s, c)[i] :: x in s
  {
    if s != "" {
      var rest := Split(s[1..], c);
      if s[0] == c {
        if i > 0 {
          PiecesOf(s[1..], c, i - 1);
        }
      } else {
        PiecesOf(s[1..], c, i);
        assert i > 0 ==> Split(s, c)[i] == rest[i];
      }
    }
  }

  lemma SafeIsRegular(v: string, core: char -> bool, pre: char -> bool, bound: nat)
    requires Safe(core, pre, bound) && Admits(v, core, pre, bound)
    ensures Regular(v)
  {
    NoHyphenInCore(v);
    NoSeparator(Core(v), '.');
    forall i | 0 <= i < |Split(Core(v), '.')|
      ensures PartOk(Split(Core(v), '.')[i], 's')
    {
      PiecesOf(Core(v), '.', i);
      var p := Split(Core(v), '.')[i];
      assert forall c | c in p :: Occurs(c);
      assert forall k | 0 <= k < |p| :: p[k] in p;
    }
    if Pre(v).Some? {
      NoSeparator(Pre(v).value, '.');
    }
  }

  // The parts [c, c] and [ce], and how their keys compare.
  lemma TwoAgainstOne(c: char, e: char)
    requires !IsDigit(c)
    ensures var two, one: seq<string> := [[c], [c]], [[c, e]];
            LexCmp(PartCmp, ParseParts(two), ParseParts(one)) == LT
  {
    var two, one: seq<string> := [[c], [c]], [[c, e]];
    assert c in [c] && c in [c, e];
    assert ParseParts(two)[0] == Text([c]) && ParseParts(one)[0] == Text([c, e]);
    assert [c] + "" == [c] && [c] + [e] == [c, e];
    StrCons(c, "", c, [e]);
  }

  lemma DottedTwice(c: char, e: char)
    requires c != '.' && e != '.'
    ensures Split([c] + "." + [c], '.') == [[c], [c]] && Split([c, e], '.') == [[c, e]]
  {
    SplitFirst([c], [c], '.');
    SplitNone([c], '.');
    SplitNone([c, e], '.');
  }

  /** The core c.c against the core ce. */
  lemma CoreWitness(c: char, e: char, core: char -> bool, pre: char -> bool, bound: nat)
    requires core(c) && Occurs(c) && !IsDigit(c) && core(e) && Occurs(e) && (e < 's' || c == e == 's')
    ensures !Embeds(core, pre, bound)
  {
    var v, w := [c] + "." + [c], [c, e];
    ReleaseText(v);
    ReleaseText(w);
    DottedTwice(c, e);
    TwoAgainstOne(c, e);
    assert c in [c] && c in [c, e];
    assert Admits(v, core, pre, bound) && Admits(w, core, pre, bound);
    var two, one: seq<string> := [[c], [c]], [[c, e]];
    CoreStrings(c, e);
    assert SortKey(v) == EncodeCore(two) + "#" + "1" && SortKey(w) == EncodeCore(one) + "#" + "1";
    assert KeyCmp(SemverKey(v), SemverKey(w)) == LT;
    assert !SameOrder(v, w);
  }

  lemma CoreStrings(c: char, e: char)
    requires !IsDigit(c) && (e < 's' || c == e == 's')
    ensures var two, one: seq<string> := [[c], [c]], [[c, e]];
            StrCmp(EncodeCore(two) + "#" + "1", EncodeCore(one) + "#" + "1") == GT
  {
    var two, one: seq<string> := [[c], [c]], [[c, e]];
    assert c in [c] && c in [c, e];
    assert EncodePart([c]) == "s" + [c] && EncodePart([c, e]) == "s" + [c, e];
    assert two[1..] == [[c]] && two[1..][1..] == [] && one[1..] == [];
    assert EncodeCore(two[1..]) == "s" + [c] by { assert EncodeCore([]) == ""; }
    var head, x, y := ['s', c], [c] + "#1", "#1";
    assert EncodeCore(two) + "#" + "1" == head + (['s'] + x);
    assert EncodeCore(one) + "#" + "1" == head + ([e] + y);
    LexBlocks(head, head, ['s'] + x, [e] + y);
    StrEqual(head);
    StrCons('s', x, e, y);
    if c == 's' {
      StrCons(c, "#1", '#', "1");
      assert "#1" == ['#'] + "1";
    }
  }

  /** The prerelease c.c against the prerelease cc, with an empty core. */
  lemma PreWitness(c: char, core: char -> bool, pre: char -> bool, bound: nat)
    requires pre(c) && c < '.'
    ensures !Embeds(core, pre, bound)
  {
    PreMismatch(c);
    PreBothAdmitted(c, core, pre, bound);
  }

  lemma PreMismatch(c: char)
    requires c < '.'
    ensures !SameOrder("" + "-" + ([c] + "." + [c]), "" + "-" + [c, c])
  {
    DottedTwice(c, c);
    TwoAgainstOne(c, c);
    PreStrings(c);
    OnlyPreOrder([c] + "." + [c], [c, c]);
  }

  lemma PreBothAdmitted(c: char, core: char -> bool, pre: char -> bool, bound: nat)
    requires pre(c) && c < '.'
    ensures Admits("" + "-" + ([c] + "." + [c]), core, pre, bound)
    ensures Admits("" + "-" + [c, c], core, pre, bound)
  {
    DottedTwice(c, c);
    RunsAdmitted(c, pre, bound);
    PreAdmits([c] + "." + [c], core, pre, bound);
    PreAdmits([c, c], core, pre, bound);
  }

  lemma RunsAdmitted(c: char, alphabet: char -> bool, bound: nat)
    requires alphabet(c) && !IsDigit(c)
    ensures Admitted([c], alphabet, bound) && Admitted([c, c], alphabet, bound)
  {
    assert c in [c] && c in [c, c];
  }

  lemma PreAdmits(p: string, core: char -> bool, pre: char -> bool, bound: nat)
    requires forall i | 0 <= i < |Split(p, '.')| :: Admitted(Split(p, '.')[i], pre, bound)
    ensures Admits("" + "-" + p, core, pre, bound)
  {
    OnlyPre(p);
  }

  lemma OnlyPre(p: string)
    ensures var v := "" + "-" + p;
            && Split(Core(v), '.') == [""] && Pre(v) == Some(p)
            && SemverKey(v) == Key(ParseParts([""]), 0, ParseParts(Split(p, '.')))
            && SortKey(v) == EncodeCore([""]) + "#" + ("0" + EncodePre(Split(p, '.')))
  {
    PrereleaseText("", p);
  }

  lemma OnlyPreOrder(p: string, q: string)
    ensures var v, w := "" + "-" + p, "" + "-" + q;
            && KeyCmp(SemverKey(v), SemverKey(w)) ==
               LexCmp(PartCmp, ParseParts(Split(p, '.')), ParseParts(Split(q, '.')))
            && StrCmp(SortKey(v), SortKey(w)) == StrCmp(EncodePre(Split(p, '.')), EncodePre(Split(q, '.')))
  {
    OnlyPre(p);
    OnlyPre(q);
    PartsEqual(ParseParts([""]));
    var head := EncodeCore([""]) + "#";
    LexBlocks(head, head, "0" + EncodePre(Split(p, '.')), "0" + EncodePre(Split(q, '.')));
    StrEqual(head);
    StrCons('0', EncodePre(Split(p, '.')), '0', EncodePre(Split(q, '.')));
  }

  lemma PartsEqual(ps: seq<Part>)
    ensures LexCmp(PartCmp, ps, ps) == EQ
  {
    if ps != [] {
      if ps[0].Text? {
        StrEqual(ps[0].s);
      }
      PartsEqual(ps[1..]);
    }
  }

  lemma PreStrings(c: char)
    requires c < '.'
    ensures var two, one: seq<string> := [[c], [c]], [[c, c]];
            StrCmp(EncodePre(two), EncodePre(one)) == GT
  {
    var two, one: seq<string> := [[c], [c]], [[c, c]];
    assert c in [c] && c in [c, c];
    assert EncodePart([c]) == "s" + [c] && EncodePart([c, c]) == "s" + [c, c];
    assert two[1..] == [[c]];
    var head := ['s', c];
    assert EncodePre(two) == head + (['.'] + ("s" + [c]));
    assert EncodePre(one) == EncodePart([c, c]) && "s" + [c, c] == head + ([c] + "");
    LexBlocks(head, head, ['.'] + ("s" + [c]), [c] + "");
    StrEqual(head);
    StrCons('.', "s" + [c], c, "");
  }

  lemma DigitsText(n: nat)
    ensures var s := Digits(n);
            IsDigits(s) && IntOf(s) == n && Core(s) == s && Pre(s).None? && Split(s, '.') == [s]
  {
    DigitsParse(n);
    ReleaseText(Digits(n));
    SplitNone(Digits(n), '.');
  }

  function Shift(n: nat, k: nat): nat {
    if k == 0 then n else Shift(n / 10, k - 1)
  }

  lemma {:induction false} LeadingDigit(n: nat, k: nat)
    requires 1 <= Shift(n, k) < 10
    ensures |Digits(n)| == k + 1 && Digits(n)[0] == DigitChar(Shift(n, k))
  {
    if k > 0 {
      if n < 10 {
        ShiftZero(k - 1);
      } else {
        LeadingDigit(n / 10, k - 1);
      }
    }
  }

  lemma {:induction false} ShiftZero(k: nat)
    ensures Shift(0, k) == 0
  {
    if k > 0 {
      ShiftZero(k - 1);
    }
  }

  /** The number 10^12 has thirteen digits and sorts before 10^12 - 1. */
  lemma NumberWitness(core: char -> bool, pre: char -> bool, bound: nat)
    requires bound > LIMIT
    ensures !Embeds(core, pre, bound)
  {
    assert Shift(999_999_999_999, 11) == 9 && Shift(1_000_000_000_000, 12) == 1;
    WideNumbers(LIMIT - 1, LIMIT, core, pre, bound);
  }

  lemma WideNumbers(m: nat, n: nat, core: char -> bool, pre: char -> bool, bound: nat)
    requires m < n < bound && Shift(m, 11) == 9 && Shift(n, 12) == 1
    ensures !Embeds(core, pre, bound)
  {
    var v, w := Digits(m), Digits(n);
    LeadingDigit(m, 11);
    LeadingDigit(n, 12);
    NumberAlone(m);
    NumberAlone(n);
    assert Admits(v, core, pre, bound) && Admits(w, core, pre, bound);
    assert KeyCmp(SemverKey(v), SemverKey(w)) == LT;
    FirstDigitDecides(v, w);
    assert !SameOrder(v, w);
  }

  lemma NumberAlone(n: nat)
    ensures var v := Digits(n);
            && Split(Core(v), '.') == [v] && Pre(v).None? && IsDigits(v) && IntOf(v) == n
            && SemverKey(v) == Key([Num(n)], 1, [])
            && (|v| >= WIDTH ==> SortKey(v) == ['n'] + v + "#1")
  {
    DigitsText(n);
    var v := Digits(n);
    var vs: seq<string> := [v];
    assert vs[1..] == [] && EncodeCore([]) == "";
    assert ParseParts(vs) == [ParsePart(v)];
    assert EncodeCore(vs) == EncodePart(v);
  }

  lemma FirstDigitDecides(v: string, w: string)
    requires v != "" && w != "" && v[0] > w[0]
    ensures StrCmp(['n'] + v + "#1", ['n'] + w + "#1") == GT
  {
    var x, y := v[1..] + "#1", w[1..] + "#1";
    assert ['n'] + v + "#1" == ['n'] + ([v[0]] + x) && ['n'] + w + "#1" == ['n'] + ([w[0]] + y);
    StrCons('n', [v[0]] + x, 'n', [w[0]] + y);
    StrCons(v[0], x, w[0], y);
  }

  // One character that is no digit, and one at or below 's'.
  lemma UnsafeCore(core: char -> bool, pre: char -> bool, bound: nat)
    requires !SafeCore(core)
    ensures !Embeds(core, pre, bound)
  {
    var c :| core(c) && Occurs(c) && !IsDigit(c);
    var e :| core(e) && Occurs(e) && e <= 's';
    CoreWitness(if IsDigit(e) then c else e, e, core, pre, bound);
  }

  /** The strings order like the keys on every admitted version exactly if the characters of non-numeric
      core parts lie above 's' or there are no such parts but empty ones, those of non-numeric prerelease
      identifiers lie above '.', and numbers stay below 10^12. */
  lemma EmbedsIff(core: char -> bool, pre: char -> bool, bound: nat)
    ensures Embeds(core, pre, bound) <==> Safe(core, pre, bound)
  {
    if Safe(core, pre, bound) {
      forall v, w | Admits(v, core, pre, bound) && Admits(w, core, pre, bound)
        ensures SameOrder(v, w)
      {
        SafeIsRegular(v, core, pre, bound);
        SafeIsRegular(w, core, pre, bound);
        SortKeyEmbeds(v, w);
      }
    } else if bound > LIMIT {
      NumberWitness(core, pre, bound);
    } else if !SafeCore(core) {
      UnsafeCore(core, pre, bound);
    } else {
      var c :| pre(c) && c != '.' && c <= '.';
      PreWitness(c, core, pre, bound);
    }
  }
}
