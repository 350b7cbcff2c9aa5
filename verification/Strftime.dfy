/** Formatting of dates up to the year 1900, for platforms that cannot: the format is rendered for two
    later years, and the year is put back where both of them show. */
module Strftime {
  import opened Wrappers
  import opened Decimal

  // ---------- What the platform renders ----------

  /** Output that does not depend on the year, or the year in four digits. */
  datatype Piece = Text(s: string) | Year

  /** What each directive prints for the date at hand.  Directives that print the year in another way are
      no `Platform`. */
  type Platform = char -> seq<Piece>

  /** The pieces of a format: a `%` and the character after it are a directive. */
  function Pieces(fmt: string, p: Platform): seq<Piece> {
    if fmt == "" then []
    else if fmt[0] == '%' && |fmt| > 1 then p(fmt[1]) + Pieces(fmt[2..], p)
    else [Text([fmt[0]])] + Pieces(fmt[1..], p)
  }

  function Render(ps: seq<Piece>, year: string): string {
    if ps == [] then ""
    else
      Render(ps[..|ps| - 1], year)
      + match ps[|ps| - 1]
        case Text(s) => s
        case Year => year
  }

  function Padded(s: string): (r: string)
    ensures |s| <= 4 ==> |r| == 4 && r[4 - |s|..] == s && forall i | 0 <= i < 4 - |s| :: r[i] == ' '
    ensures |s| >= 4 ==> r == s
    decreases 4 - |s|
  {
    if |s| >= 4 then s else Padded(" " + s)
  }

  /** `"%4d" % year` */
  function Padded4(year: nat): string {
    Padded(Show(year))
  }

  lemma {:induction false} RenderJoin(ps: seq<Piece>, qs: seq<Piece>, year: string)
    ensures Render(ps + qs, year) == Render(ps, year) + Render(qs, year)
  {
    if qs == [] {
      assert ps + qs == ps;
    } else {
      RenderJoin(ps, qs[..|qs| - 1], year);
      assert (ps + qs)[..|ps + qs| - 1] == ps + qs[..|qs| - 1];
    }
  }

  /** Text stands for itself up to the next percent sign. */
  lemma {:induction false} PiecesOfText(text: string, tail: string, p: Platform, year: string)
    requires '%' !in text
    ensures Render(Pieces(text + tail, p), year) == text + Render(Pieces(tail, p), year)
  {
    hide Render, Pieces;
    if text == "" {
      assert text + tail == tail;
    } else {
      PiecesOfText(text[1..], tail, p, year);
      PiecesOfChar(text[0], text[1..] + tail, p);
      assert text + tail == [text[0]] + (text[1..] + tail);
      RenderOne([text[0]], year);
      RenderJoin([Text([text[0]])], Pieces(text[1..] + tail, p), year);
      assert text == [text[0]] + text[1..];
    }
  }

  lemma PiecesOfChar(c: char, rest: string, p: Platform)
    requires c != '%'
    ensures Pieces([c] + rest, p) == [Text([c])] + Pieces(rest, p)
  {
    assert ([c] + rest)[1..] == rest;
  }

  /** A directive prints what the platform says for it; a percent sign at the end is text. */
  lemma PiecesOfDirective(c: char, rest: string, p: Platform, year: string)
    ensures Render(Pieces(['%', c] + rest, p), year) == Render(p(c), year) + Render(Pieces(rest, p), year)
    ensures Render(Pieces("%", p), year) == "%"
  {
    assert (['%', c] + rest)[2..] == rest;
    RenderJoin(p(c), Pieces(rest, p), year);
    RenderOne("%", year);
    assert "%"[1..] == "" && Pieces("%", p) == [Text("%")] + [];
  }

  lemma RenderOne(s: string, year: string)
    ensures Render([Text(s)], year) == s
  {
    assert [Text(s)][..0] == [];
  }

  // ---------- Where the years are ----------

  function Length(ps: seq<Piece>): nat {
    if ps == [] then 0
    else
      Length(ps[..|ps| - 1])
      + match ps[|ps| - 1]
        case Text(s) => |s|
        case Year => 4
  }

  function Sites(ps: seq<Piece>): set<nat> {
    if ps == [] then {}
    else
      var front := ps[..|ps| - 1];
      Sites(front) + if ps[|ps| - 1].Year? then {Length(front)} else {}
  }

  predicate Occurs(text: string, word: string, at: nat) {
    at + |word| <= |text| && text[at..at + |word|] == word
  }

  lemma {:induction false} RenderLength(ps: seq<Piece>, w: string)
    requires |w| == 4
    ensures |Render(ps, w)| == Length(ps)
  {
    if ps != [] { RenderLength(ps[..|ps| - 1], w); }
  }

  lemma {:induction false} SiteShowsYear(ps: seq<Piece>, w: string, q: nat)
    requires |w| == 4 && q in Sites(ps)
    ensures q + 4 <= Length(ps) && Occurs(Render(ps, w), w, q)
  {
    var front := ps[..|ps| - 1];
    RenderLength(front, w);
    RenderLength(ps, w);
    var r := Render(ps, w);
    if q in Sites(front) {
      SiteShowsYear(front, w, q);
      assert r[q..q + 4] == Render(front, w)[q..q + 4];
    } else {
      assert r[q..q + 4] == w;
    }
  }

  lemma {:induction false} SitesApart(ps: seq<Piece>, q: nat, r: nat)
    requires q in Sites(ps) && r in Sites(ps) && q < r
    ensures q + 4 <= r
  {
    var front := ps[..|ps| - 1];
    if q in Sites(front) {
      SiteShowsYear(front, "0000", q);
      if r in Sites(front) { SitesApart(front, q, r); }
    } else if r in Sites(front) {
      SiteShowsYear(front, "0000", r);
    }
  }

  predicate Covered(ps: seq<Piece>, i: nat) {
    exists q | q in Sites(ps) :: q <= i < q + 4
  }

  /** Outside of the sites, the year makes no difference. */
  lemma {:induction false} SameElsewhere(ps: seq<Piece>, v: string, w: string, i: nat)
    requires |v| == 4 && |w| == 4 && i < Length(ps) && !Covered(ps, i)
    ensures |Render(ps, v)| == Length(ps) && |Render(ps, w)| == Length(ps)
    ensures Render(ps, v)[i] == Render(ps, w)[i]
  {
    var front := ps[..|ps| - 1];
    RenderLength(ps, v);
    RenderLength(ps, w);
    RenderLength(front, v);
    RenderLength(front, w);
    assert Sites(front) <= Sites(ps);
    assert ps[|ps| - 1].Year? ==> Length(front) in Sites(ps);
    if i < Length(front) {
      SameElsewhere(front, v, w, i);
    }
  }

  // ---------- The substitute years ----------

  function Substitute(year: nat): int {
    var delta := 2000 - year;
    var later := year + 6 * (delta / 100 + delta / 400);
    later + (2000 - later) / 28 * 28
  }

  lemma SubstituteInRange(year: nat)
    ensures 1973 <= Substitute(year) <= 2000
  {
  }

  /** Up to 1900 the substitute is a whole number of cycles of 28 years away, but for six years for every
      century that is no leap year. */
  lemma SubstituteCycle(year: nat, centuries: nat, fourth: nat)
    requires year <= 1900 && 0 <= 2000 - year - 100 * centuries < 100 && 0 <= 2000 - year - 400 * fourth < 400
    ensures exists n: int :: Substitute(year) == year + 6 * (centuries + fourth) + 28 * n
  {
    var later := year + 6 * (centuries + fourth);
    assert (2000 - year) / 100 == centuries && (2000 - year) / 400 == fourth;
    assert Substitute(year) == later + 28 * ((2000 - later) / 28);
  }

  lemma FourDigits(n: nat)
    requires 1000 <= n <= 9999
    ensures Show(n) == [Digit(n / 1000), Digit(n / 100 % 10), Digit(n / 10 % 10), Digit(n % 10)]
  {
    assert n / 10 / 10 / 10 == n / 1000 && n / 10 / 10 == n / 100;
    assert Show(n / 1000) == [Digit(n / 1000)];
    assert Show(n / 100) == Show(n / 1000) + [Digit(n / 100 % 10)];
    assert Show(n / 10) == Show(n / 100) + [Digit(n / 10 % 10)];
  }

  lemma DigitInjective(a: nat, b: nat)
    requires a < 10 && b < 10 && Digit(a) == Digit(b)
    ensures a == b
  {
  }

  /** The word's end, from `d` on, is also its beginning. */
  predicate Border(w: string, d: nat)
    requires |w| == 4 && d < 4
  {
    forall j | 0 <= j < 4 - d :: w[d + j] == w[j]
  }

  lemma BorderDigits(n: nat, d: nat)
    requires 1000 <= n <= 9999 && 1 <= d < 4
    ensures |Show(n)| == 4
    ensures Border(Show(n), d) ==> n / 1000 == if d == 1 then n / 100 % 10 else if d == 2 then n / 10 % 10 else n % 10
  {
    FourDigits(n);
    if Border(Show(n), d) {
      assert Show(n)[d + 0] == Show(n)[0];
      DigitInjective(if d == 1 then n / 100 % 10 else if d == 2 then n / 10 % 10 else n % 10, n / 1000);
    }
  }

  /** A year and the one 28 years later do not overlap with themselves at the same distance. */
  lemma NoCommonBorder(y: nat, d: nat)
    requires 1973 <= y <= 2000 && 1 <= d < 4
    ensures |Show(y)| == 4 && |Show(y + 28)| == 4
    ensures !(Border(Show(y), d) && Border(Show(y + 28), d))
  {
    hide Show, Border;
    BorderDigits(y, d);
    BorderDigits(y + 28, d);
  }

  lemma DifferSomewhere(y: nat) returns (j: nat)
    requires 1973 <= y <= 2000
    ensures |Show(y)| == 4 && |Show(y + 28)| == 4 && j < 4 && Show(y)[j] != Show(y + 28)[j]
  {
    FourDigits(y);
    FourDigits(y + 28);
    j := 3;
    if Show(y)[3] == Show(y + 28)[3] { DigitInjective(y % 10, (y + 28) % 10); }
  }

  /** The sites that both renderings show are the places of the year, and no others: however the format
      mixes the year with digits of its own. */
  lemma CommonSitesExact(ps: seq<Piece>, y: nat, at: nat)
    requires 1973 <= y <= 2000
    ensures
      Occurs(Render(ps, Show(y)), Show(y), at) && Occurs(Render(ps, Show(y + 28)), Show(y + 28), at)
      <==> at in Sites(ps)
  {
    hide Show, Render, Sites, Occurs, Border;
    LongYear(y);
    LongYear(y + 28);
    var v, w := Show(y), Show(y + 28);
    RenderLength(ps, v);
    RenderLength(ps, w);
    if at in Sites(ps) {
      SiteShowsYear(ps, v, at);
      SiteShowsYear(ps, w, at);
    } else if Occurs(Render(ps, v), v, at) && Occurs(Render(ps, w), w, at) {
      var j := DifferSomewhere(y);
      OccursAt(Render(ps, v), v, at, j);
      OccursAt(Render(ps, w), w, at, j);
      if !Covered(ps, at + j) {
        SameElsewhere(ps, v, w, at + j);
        assert false;
      }
      var q :| q in Sites(ps) && q <= at + j < q + 4;
      var d := if q < at then at - q else q - at;
      OverlapIsBorder(ps, v, at, q);
      OverlapIsBorder(ps, w, at, q);
      NoCommonBorder(y, d);
      assert false;
    }
  }

  lemma OccursAt(text: string, word: string, at: nat, j: nat)
    requires Occurs(text, word, at) && j < |word|
    ensures at + j < |text| && text[at + j] == word[j]
  {
    assert text[at..at + |word|][j] == text[at + j];
  }

  lemma OverlapIsBorder(ps: seq<Piece>, w: string, at: nat, q: nat)
    requires |w| == 4 && q in Sites(ps) && Occurs(Render(ps, w), w, at)
    requires at != q && at < q + 4 && q < at + 4
    ensures Border(w, if q < at then at - q else q - at)
  {
    hide Render, Sites, Occurs;
    SiteShowsYear(ps, w, q);
    var r := Render(ps, w);
    var d := if q < at then at - q else q - at;
    forall j | 0 <= j < 4 - d ensures w[d + j] == w[j] {
      OccursAt(r, w, q, if q < at then d + j else j);
      OccursAt(r, w, at, if q < at then j else d + j);
    }
  }

  // ---------- Putting the year back ----------

  function Splice(s: string, year: string, at: nat): string
    requires at + 4 <= |s|
  {
    s[..at] + year + s[at + 4..]
  }

  /** The rendering in which the sites of `done` show `year` already. */
  ghost predicate Spliced(ps: seq<Piece>, s: string, old_: string, year: string, done: set<nat>) {
    && |s| == Length(ps) == |old_|
    && (forall q | q in done :: q in Sites(ps) && Occurs(s, year, q))
    && (forall i | 0 <= i < |s| && (forall q | q in done :: !(q <= i < q + 4)) :: s[i] == old_[i])
  }

  lemma SpliceStep(ps: seq<Piece>, s: string, old_: string, year: string, done: set<nat>, at: nat)
    requires |year| == 4 && Spliced(ps, s, old_, year, done) && at in Sites(ps)
    ensures at + 4 <= |s| && Spliced(ps, Splice(s, year, at), old_, year, done + {at})
  {
    SiteShowsYear(ps, year, at);
    var t := Splice(s, year, at);
    assert t[at..at + 4] == year;
    forall q | q in done ensures Occurs(t, year, q) {
      if q != at {
        SitesApart(ps, if q < at then q else at, if q < at then at else q);
        SiteShowsYear(ps, year, q);
        assert t[q..q + 4] == s[q..q + 4];
      }
    }
    forall i | 0 <= i < |t| && (forall q | q in done + {at} :: !(q <= i < q + 4)) ensures t[i] == old_[i] {
      assert at in done + {at};
      assert s[i] == old_[i];
    }
  }

  /** With all sites replaced, the text is the rendering for that year. */
  lemma AllSpliced(ps: seq<Piece>, s: string, v: string, w: string)
    requires |v| == 4 && |w| == 4 && Spliced(ps, s, Render(ps, v), w, Sites(ps))
    ensures s == Render(ps, w)
  {
    RenderLength(ps, w);
    forall i | 0 <= i < |s| ensures s[i] == Render(ps, w)[i] {
      if Covered(ps, i) {
        var q :| q in Sites(ps) && q <= i < q + 4;
        SiteShowsYear(ps, w, q);
        assert s[q..q + 4][i - q] == Render(ps, w)[q..q + 4][i - q];
      } else {
        SameElsewhere(ps, v, w, i);
      }
    }
  }

  // ---------- `%s` is refused ----------

  /** `(^|[^%])(%%)*%s`, with the first `%` at `j` and `n` escaped ones. */
  predicate IllegalAt(fmt: string, j: nat, n: nat) {
    && j + 2 * n + 1 < |fmt|
    && (j == 0 || fmt[j - 1] != '%')
    && (forall i | j <= i <= j + 2 * n :: fmt[i] == '%')
    && fmt[j + 2 * n + 1] == 's'
  }

  predicate Illegal(fmt: string) {
    exists j: nat, n: nat | j < |fmt| && n < |fmt| :: IllegalAt(fmt, j, n)
  }

  /** Whether a format, read from left to right, has directive `c`. */
  predicate HasDirective(fmt: string, c: char) {
    if |fmt| < 2 then false
    else if fmt[0] == '%' then fmt[1] == c || HasDirective(fmt[2..], c)
    else HasDirective(fmt[1..], c)
  }

  /** The pattern finds exactly the formats that have the directive. */
  lemma {:induction false} IllegalExactly(fmt: string)
    ensures Illegal(fmt) <==> HasDirective(fmt, 's')
  {
    if |fmt| >= 2 {
      var skip := if fmt[0] == '%' then 2 else 1;
      var rest := fmt[skip..];
      IllegalExactly(rest);
      if Illegal(fmt) && !(fmt[0] == '%' && fmt[1] == 's') {
        IllegalLater(fmt, skip);
      }
      if fmt[0] == '%' && fmt[1] == 's' {
        assert IllegalAt(fmt, 0, 0);
      } else if Illegal(rest) {
        IllegalBefore(fmt, skip);
      }
    }
  }

  lemma IllegalLater(fmt: string, skip: nat)
    requires |fmt| >= 2 && Illegal(fmt) && !(fmt[0] == '%' && fmt[1] == 's')
    requires skip == if fmt[0] == '%' then 2 else 1
    ensures Illegal(fmt[skip..])
  {
    var rest := fmt[skip..];
    var j: nat, n: nat :| j < |fmt| && n < |fmt| && IllegalAt(fmt, j, n);
    assert fmt[j] == '%';
    if j == 0 {
      assert fmt[1] == if n == 0 then 's' else '%';
      assert IllegalAt(rest, 0, n - 1);
    } else {
      assert j == 1 ==> fmt[0] != '%';
      assert IllegalAt(rest, j - skip, n);
    }
  }

  lemma IllegalBefore(fmt: string, skip: nat)
    requires |fmt| >= 2 && skip == (if fmt[0] == '%' then 2 else 1) && Illegal(fmt[skip..])
    ensures Illegal(fmt)
  {
    var rest := fmt[skip..];
    var j: nat, n: nat :| j < |rest| && n < |rest| && IllegalAt(rest, j, n);
    assert rest[j] == '%';
    if j == 0 && fmt[skip - 1] == '%' {
      assert IllegalAt(fmt, 0, n + 1);
    } else {
      assert IllegalAt(fmt, j + skip, n);
    }
  }

  // ---------- The algorithm ----------

  datatype Error = TypeError

  /** `text.find(word, i)`, with `None` for -1 */
  method Find(text: string, word: string, i: nat) returns (j: Option<nat>)
    requires i <= |text|
    ensures j.Some? ==> i <= j.value && Occurs(text, word, j.value)
    ensures forall m: nat :: i <= m && (j.Some? ==> m < j.value) ==> !Occurs(text, word, m)
  {
    var at := i;
    while at + |word| <= |text|
      invariant i <= at
      invariant forall m: nat :: i <= m < at ==> !Occurs(text, word, m)
    {
      if text[at..at + |word|] == word {
        return Some(at);
      }
      at := at + 1;
    }
    return None;
  }

  /** All occurrences, overlapping ones too, from left to right. */
  method FindAllDatetime(text: string, word: string) returns (sites: seq<nat>)
    requires word != ""
    ensures forall at: nat :: at in sites <==> Occurs(text, word, at)
    ensures forall a, b | 0 <= a < b < |sites| :: sites[a] < sites[b]
  {
    sites := [];
    var i := 0;
    while true
      invariant 0 <= i <= |text|
      invariant forall at: nat :: at in sites <==> at < i && Occurs(text, word, at)
      invariant forall a | 0 <= a < |sites| :: sites[a] < i
      invariant forall a, b | 0 <= a < b < |sites| :: sites[a] < sites[b]
      decreases |text| - i
    {
      var j := Find(text, word, i);
      if j.None? {
        return;
      }
      ghost var before := sites;
      sites := sites + [j.value];
      assert forall at: nat :: at in sites <==> at in before || at == j.value;
      i := j.value + 1;
    }
  }

  /** For the years of the calendar, whatever the format: the true year, padded to four places. */
  method Strftime(year: nat, fmt: string, p: Platform) returns (r: Result<string, Error>)
    requires 1 <= year <= 9999
    ensures r == if HasDirective(fmt, 's') then Err(TypeError) else Ok(Render(Pieces(fmt, p), Padded4(year)))
  {
    hide Substitute, Render, Show, Sites, Illegal, HasDirective, Occurs;
    IllegalExactly(fmt);
    if Illegal(fmt) {
      return Err(TypeError);
    }
    ghost var ps := Pieces(fmt, p);
    if year > 1900 {
      LongYear(year);
      return Ok(Render(Pieces(fmt, p), Show(year)));
    }
    var substitute := year;
    var delta := 2000 - year;
    substitute := substitute + 6 * (delta / 100 + delta / 400);
    substitute := substitute + (2000 - substitute) / 28 * 28;
    assert substitute == Substitute(year) by { SubstituteIs(year, substitute); }
    SubstituteInRange(year);
    LongYear(substitute);
    LongYear(substitute + 28);

    var s1 := Render(Pieces(fmt, p), Show(substitute));
    var sites1 := FindAllDatetime(s1, Show(substitute));
    var s2 := Render(Pieces(fmt, p), Show(substitute + 28));
    var sites2 := FindAllDatetime(s2, Show(substitute + 28));

    var sites := CommonSites(sites1, sites2);
    forall at: nat ensures at in sites <==> at in Sites(ps) {
      CommonSitesExact(ps, substitute, at);
    }
    ShortYear(year);
    var s := SpliceAll(ps, s1, Padded4(year), sites);
    return Ok(s);
  }

  /** Puts `syear` at all sites, which may stand in any order. */
  method SpliceAll(ghost ps: seq<Piece>, s1: string, syear: string, sites: seq<nat>) returns (s: string)
    requires |syear| == 4 && exists v :: |v| == 4 && s1 == Render(ps, v)
    requires forall at: nat :: at in sites <==> at in Sites(ps)
    ensures s == Render(ps, syear)
  {
    ghost var v :| |v| == 4 && s1 == Render(ps, v);
    RenderLength(ps, v);
    s := s1;
    ghost var done: set<nat> := {};
    for i := 0 to |sites|
      invariant done == set j | 0 <= j < i :: sites[j]
      invariant Spliced(ps, s, s1, syear, done)
    {
      assert sites[i] in Sites(ps);
      SpliceStep(ps, s, s1, syear, done, sites[i]);
      s := Splice(s, syear, sites[i]);
      done := done + {sites[i]};
    }
    assert done == Sites(ps);
    AllSpliced(ps, s, v, syear);
  }

  method CommonSites(sites1: seq<nat>, sites2: seq<nat>) returns (sites: seq<nat>)
    ensures forall at :: at in sites <==> at in sites1 && at in sites2
  {
    sites := [];
    for i := 0 to |sites1|
      invariant forall at :: at in sites <==> at in sites1[..i] && at in sites2
    {
      assert sites1[..i + 1] == sites1[..i] + [sites1[i]];
      if sites1[i] in sites2 {
        sites := sites + [sites1[i]];
      }
    }
    assert sites1[..|sites1|] == sites1;
  }

  lemma SubstituteIs(year: nat, substitute: int)
    requires
      var later := year + 6 * ((2000 - year) / 100 + (2000 - year) / 400);
      substitute == later + (2000 - later) / 28 * 28
    ensures substitute == Substitute(year)
  {
  }

  lemma LongYear(year: nat)
    requires 1000 <= year <= 9999
    ensures |Show(year)| == 4 && Padded4(year) == Show(year)
  {
    FourDigits(year);
  }

  lemma ShortYear(year: nat)
    requires year <= 1900
    ensures |Padded4(year)| == 4
  {
    if year >= 1000 { FourDigits(year); } else { ShortShow(year); }
  }

  lemma ShortShow(n: nat)
    requires n < 1000
    ensures |Show(n)| <= 3
  {
    if n >= 10 {
      assert n / 10 < 100 && n / 10 / 10 < 10;
      assert |Show(n)| == |Show(n / 10)| + 1;
    }
  }
}
