/** `semver_key` against the precedence rules of section 11 of SemVer 2.0.0. */
module SemverPrecedence {
  import opened Common
  import opened Lex
  import opened Strings
  import opened Semver
  import Keys = SortKeyOrder

  datatype Ident = Numeric(n: nat) | Alnum(s: string)

  // A version without build metadata.
  datatype SemVer = SemVer(major: nat, minor: nat, patch: nat, pre: seq<Ident>)

  predicate ValidIdent(i: Ident) {
    i.Alnum? ==> (forall c | c in i.s :: Keys.IsAlnum(c) || c == '-') && exists c | c in i.s :: !IsDigit(c)
  }

  predicate Valid(v: SemVer) {
    forall i | i in v.pre :: ValidIdent(i)
  }

  function IdentText(i: Ident): string {
    match i
    case Numeric(n) => Digits(n)
    case Alnum(s) => s
  }

  function PreText(ids: seq<Ident>): string
    requires ids != []
  {
    if |ids| == 1 then IdentText(ids[0]) else IdentText(ids[0]) + "." + PreText(ids[1..])
  }

  function CoreText(v: SemVer): string {
    Digits(v.major) + "." + (Digits(v.minor) + "." + Digits(v.patch))
  }

  function VersionText(v: SemVer): string {
    if v.pre == [] then CoreText(v) else CoreText(v) + "-" + PreText(v.pre)
  }

  /* ---------- precedence, as the specification words it ---------- */

  // Numeric identifiers compare numerically, others in ASCII order; numeric ones are lower.
  function IdentPrecedence(a: Ident, b: Ident): Ord {
    if a.Numeric? && b.Numeric? then IntCmp(a.n, b.n)
    else if a.Numeric? then LT
    else if b.Numeric? then GT
    else StrCmp(a.s, b.s)
  }

  // Left to right until a difference; a larger set of fields is higher.
  function PrePrecedence(a: seq<Ident>, b: seq<Ident>): Ord {
    if a != [] && b != [] && IdentPrecedence(a[0], b[0]) != EQ then IdentPrecedence(a[0], b[0])
    else if a != [] && b != [] then PrePrecedence(a[1..], b[1..])
    else IntCmp(|a|, |b|)
  }

  // Major, minor and patch numerically; then a prerelease is lower than the release.
  function Precedence(v: SemVer, w: SemVer): Ord {
    if v.major != w.major then IntCmp(v.major, w.major)
    else if v.minor != w.minor then IntCmp(v.minor, w.minor)
    else if v.patch != w.patch then IntCmp(v.patch, w.patch)
    else if v.pre == [] && w.pre != [] then GT
    else if v.pre != [] && w.pre == [] then LT
    else PrePrecedence(v.pre, w.pre)
  }

  /* ---------- the keys of well-formed versions ---------- */

  function IdentPart(i: Ident): Part {
    match i
    case Numeric(n) => Num(n)
    case Alnum(s) => Text(s)
  }

  function IdentParts(ids: seq<Ident>): (r: seq<Part>)
    ensures |r| == |ids|
  {
    if ids == [] then [] else [IdentPart(ids[0])] + IdentParts(ids[1..])
  }

  lemma {:induction false} AllDigits(n: nat)
    ensures IsDigits(Digits(n)) && IntOf(Digits(n)) == n && '.' !in Digits(n) && '-' !in Digits(n)
  {
    DigitsParse(n);
  }

  lemma IdentParses(i: Ident)
    requires ValidIdent(i)
    ensures ParsePart(IdentText(i)) == IdentPart(i) && '.' !in IdentText(i)
  {
    match i
    case Numeric(n) => AllDigits(n);
    case Alnum(s) =>
  }

  lemma {:induction false} PreParses(ids: seq<Ident>)
    requires ids != [] && forall i | i in ids :: ValidIdent(i)
    ensures ParseParts(Split(PreText(ids), '.')) == IdentParts(ids)
  {
    assert ids[0] in ids;
    IdentParses(ids[0]);
    var t := IdentText(ids[0]);
    if |ids| == 1 {
      SplitNone(t, '.');
      assert ids[1..] == [];
      assert ParseParts([t]) == [ParsePart(t)];
    } else {
      assert forall i | i in ids[1..] :: i in ids;
      PreParses(ids[1..]);
      SplitFirst(t, PreText(ids[1..]), '.');
      assert PreText(ids) == t + ['.'] + PreText(ids[1..]);
      var rest := Split(PreText(ids[1..]), '.');
      assert ([t] + rest)[1..] == rest;
    }
  }

  lemma CoreParses(v: SemVer)
    ensures ParseParts(Split(CoreText(v), '.')) == [Num(v.major), Num(v.minor), Num(v.patch)]
    ensures '-' !in CoreText(v)
  {
    AllDigits(v.major);
    AllDigits(v.minor);
    AllDigits(v.patch);
    var a, b, c := Digits(v.major), Digits(v.minor), Digits(v.patch);
    SplitFirst(a, b + "." + c, '.');
    SplitFirst(b, c, '.');
    SplitNone(c, '.');
    assert Split(CoreText(v), '.') == [a, b, c];
  }

  lemma KeyOfText(v: SemVer)
    requires Valid(v)
    ensures SemverKey(VersionText(v)) ==
            Key([Num(v.major), Num(v.minor), Num(v.patch)], if v.pre == [] then 1 else 0, IdentParts(v.pre))
  {
    CoreParses(v);
    if v.pre == [] {
      ReleaseText(CoreText(v));
    } else {
      PrereleaseText(CoreText(v), PreText(v.pre));
      PreParses(v.pre);
    }
  }

  lemma {:induction false} PreOrder(a: seq<Ident>, b: seq<Ident>)
    ensures LexCmp(PartCmp, IdentParts(a), IdentParts(b)) == PrePrecedence(a, b)
  {
    if a != [] && b != [] {
      PreOrder(a[1..], b[1..]);
      assert IdentParts(a)[1..] == IdentParts(a[1..]) && IdentParts(b)[1..] == IdentParts(b[1..]);
    }
  }

  lemma CoreOrder(v: SemVer, w: SemVer)
    ensures LexCmp(PartCmp, [Num(v.major), Num(v.minor), Num(v.patch)], [Num(w.major), Num(w.minor), Num(w.patch)])
            == IntCmp(v.major, w.major).Then(IntCmp(v.minor, w.minor)).Then(IntCmp(v.patch, w.patch))
  {
    var a := [Num(v.major), Num(v.minor), Num(v.patch)];
    var b := [Num(w.major), Num(w.minor), Num(w.patch)];
    assert a[1..][1..] == [Num(v.patch)] && b[1..][1..] == [Num(w.patch)];
    assert LexCmp(PartCmp, a[1..][1..], b[1..][1..]) == IntCmp(v.patch, w.patch);
    assert LexCmp(PartCmp, a[1..], b[1..]) == IntCmp(v.minor, w.minor).Then(IntCmp(v.patch, w.patch));
  }

  /** `semver_key` orders well-formed versions by SemVer precedence. */
  lemma KeyOrderIsPrecedence(v: SemVer, w: SemVer)
    requires Valid(v) && Valid(w)
    ensures KeyCmp(SemverKey(VersionText(v)), SemverKey(VersionText(w))) == Precedence(v, w)
  {
    KeyOfText(v);
    KeyOfText(w);
    CoreOrder(v, w);
    PreOrder(v.pre, w.pre);
  }

  // What sort_key needs on top: numbers below 10^12 and no hyphen inside an identifier.
  predicate Sortable(v: SemVer) {
    && v.major < Keys.LIMIT && v.minor < Keys.LIMIT && v.patch < Keys.LIMIT
    && forall i | i in v.pre :: if i.Numeric? then i.n < Keys.LIMIT else '-' !in i.s
  }

  lemma {:induction false} PreSortable(ids: seq<Ident>)
    requires ids != []
    requires forall i | i in ids :: ValidIdent(i) && if i.Numeric? then i.n < Keys.LIMIT else '-' !in i.s
    ensures Keys.PartsOk(Split(PreText(ids), '.'), '.')
  {
    assert ids[0] in ids;
    IdentParses(ids[0]);
    var t := IdentText(ids[0]);
    if ids[0].Numeric? {
      AllDigits(ids[0].n);
    }
    assert Keys.PartOk(t, '.');
    if |ids| == 1 {
      SplitNone(t, '.');
    } else {
      assert forall i | i in ids[1..] :: i in ids;
      PreSortable(ids[1..]);
      SplitFirst(t, PreText(ids[1..]), '.');
      assert PreText(ids) == t + ['.'] + PreText(ids[1..]);
    }
  }

  /** So the database column orders such versions by SemVer precedence. */
  lemma SortKeyOrderIsPrecedence(v: SemVer, w: SemVer)
    requires Valid(v) && Valid(w) && Sortable(v) && Sortable(w)
    ensures StrCmp(SortKey(VersionText(v)), SortKey(VersionText(w))) == Precedence(v, w)
  {
    SortableIsRegular(v);
    SortableIsRegular(w);
    Keys.SortKeyEmbeds(VersionText(v), VersionText(w));
    KeyOrderIsPrecedence(v, w);
  }

  lemma SortableIsRegular(v: SemVer)
    requires Valid(v) && Sortable(v)
    ensures Keys.Regular(VersionText(v))
  {
    AllDigits(v.major);
    AllDigits(v.minor);
    AllDigits(v.patch);
    var a, b, c := Digits(v.major), Digits(v.minor), Digits(v.patch);
    SplitFirst(a, b + "." + c, '.');
    SplitFirst(b, c, '.');
    SplitNone(c, '.');
    assert Split(CoreText(v), '.') == [a, b, c];
    CoreParses(v);
    if v.pre == [] {
      ReleaseText(CoreText(v));
    } else {
      PrereleaseText(CoreText(v), PreText(v.pre));
      PreSortable(v.pre);
    }
  }
}
