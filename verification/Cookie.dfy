/** Cookie headers: splitting them up, and the quoted values in them. */
module Cookie {
  import opened Wrappers

  // ---------- Quoted values ----------

  predicate IsOctal(c: char) {
    '0' <= c <= '7'
  }

  /** `\\[0-3][0-7][0-7]` */
  predicate OctalAt(s: string, i: nat) {
    i + 4 <= |s| && s[i] == '\\' && '0' <= s[i + 1] <= '3' && IsOctal(s[i + 2]) && IsOctal(s[i + 3])
  }

  /** `[\\].`, where the dot stands for any character but a newline */
  predicate QuoteAt(s: string, i: nat) {
    i + 2 <= |s| && s[i] == '\\' && s[i + 1] != '\n'
  }

  function Digit8(c: char): nat
    requires IsOctal(c)
  {
    c as int - '0' as int
  }

  /** `chr(int(digits, 8))` */
  function OctalChar(a: char, b: char, c: char): char
    requires '0' <= a <= '3' && IsOctal(b) && IsOctal(c)
  {
    (64 * Digit8(a) + 8 * Digit8(b) + Digit8(c)) as char
  }

  /** A quoted value read from left to right. */
  function Decode(s: string): string {
    if s == "" then ""
    else if OctalAt(s, 0) then [OctalChar(s[1], s[2], s[3])] + Decode(s[4..])
    else if QuoteAt(s, 0) then [s[1]] + Decode(s[2..])
    else [s[0]] + Decode(s[1..])
  }

  predicate IsQuoted(s: string) {
    |s| >= 2 && s[0] == '"' && s[|s| - 1] == '"'
  }

  /** `_unquote_cookie` */
  function Unquoted(s: string): string {
    if IsQuoted(s) then Decode(s[1..|s| - 1]) else s
  }

  /** `_OctalPatt.search(s, i)` */
  function FirstOctal(s: string, i: nat): (j: Option<nat>)
    requires i <= |s|
    ensures j.Some? ==> i <= j.value && OctalAt(s, j.value) && forall m | i <= m < j.value :: !OctalAt(s, m)
    ensures j.None? ==> forall m | i <= m :: !OctalAt(s, m)
    decreases |s| - i
  {
    if OctalAt(s, i) then Some(i) else if i == |s| then None else FirstOctal(s, i + 1)
  }

  /** `_QuotePatt.search(s, i)` */
  function FirstQuote(s: string, i: nat): (k: Option<nat>)
    requires i <= |s|
    ensures k.Some? ==> i <= k.value && QuoteAt(s, k.value) && forall m | i <= m < k.value :: !QuoteAt(s, m)
    ensures k.None? ==> forall m | i <= m :: !QuoteAt(s, m)
    decreases |s| - i
  {
    if QuoteAt(s, i) then Some(i) else if i == |s| then None else FirstQuote(s, i + 1)
  }

  lemma NoEscape(s: string, i: nat)
    requires i < |s| && !QuoteAt(s, i)
    ensures !QuoteAt(s[i..], 0) && !OctalAt(s[i..], 0)
  {
  }

  /** Up to the first escape, a value stands for itself. */
  lemma {:induction false} PlainPrefix(s: string, i: nat, k: nat)
    requires i <= k <= |s| && forall m | i <= m < k :: !QuoteAt(s, m)
    ensures Decode(s[i..]) == s[i..k] + Decode(s[k..])
    decreases k - i
  {
    hide QuoteAt, OctalAt;
    if i < k {
      PlainPrefix(s, i + 1, k);
      assert !QuoteAt(s, i);
      assert s[i..][1..] == s[i + 1..];
      assert !QuoteAt(s[i..], 0) && !OctalAt(s[i..], 0) by { NoEscape(s, i); }
      assert s[i..k] == [s[i]] + s[i + 1..k];
    }
  }

  lemma QuoteStep(s: string, i: nat, k: nat)
    requires i <= k && QuoteAt(s, k) && !OctalAt(s, k) && forall m | i <= m < k :: !QuoteAt(s, m)
    ensures Decode(s[i..]) == s[i..k] + [s[k + 1]] + Decode(s[k + 2..])
  {
    PlainPrefix(s, i, k);
    assert s[k..][2..] == s[k + 2..];
    assert QuoteAt(s[k..], 0) && !OctalAt(s[k..], 0);
  }

  lemma OctalStep(s: string, i: nat, j: nat)
    requires i <= j && OctalAt(s, j) && forall m | i <= m < j :: !QuoteAt(s, m)
    ensures Decode(s[i..]) == s[i..j] + [OctalChar(s[j + 1], s[j + 2], s[j + 3])] + Decode(s[j + 4..])
  {
    PlainPrefix(s, i, j);
    assert s[j..][4..] == s[j + 4..];
    assert OctalAt(s[j..], 0);
  }

  /** The search loop decodes from left to right. */
  method UnquoteCookie(str: Option<string>) returns (r: Option<string>)
    ensures r == match str case None => None case Some(s) => Some(Unquoted(s))
  {
    if str.None? || |str.value| < 2 {
      return str;
    }
    if str.value[0] != '"' || str.value[|str.value| - 1] != '"' {
      return str;
    }
    var text := UnquoteInner(str.value[1..|str.value| - 1]);
    return Some(text);
  }

  method UnquoteInner(s: string) returns (res: string)
    ensures res == Decode(s)
  {
    hide Decode;
    var i, n := 0, |s|;
    res := "";
    while 0 <= i < n
      invariant 0 <= i <= n
      invariant res + Decode(s[i..]) == Decode(s)
      decreases n - i
    {
      var o, q := FirstOctal(s, i), FirstQuote(s, i);
      ghost var before := res;
      if o.None? && q.None? {
        PlainPrefix(s, i, n);
        assert s[i..n] == s[i..];
        DecodeEmpty(s);
        res := res + s[i..];
        assert res == before + (s[i..n] + Decode(s[n..]));
        return;
      }
      if q.Some? && (o.None? || q.value < o.value) {
        var k := q.value;
        QuoteStep(s, i, k);
        res := res + s[i..k] + [s[k + 1]];
        assert before + (s[i..k] + [s[k + 1]] + Decode(s[k + 2..])) == res + Decode(s[k + 2..]);
        i := k + 2;
      } else {
        var j := o.value;
        assert QuoteAt(s, j);
        OctalStep(s, i, j);
        var c := OctalChar(s[j + 1], s[j + 2], s[j + 3]);
        res := res + s[i..j] + [c];
        assert before + (s[i..j] + [c] + Decode(s[j + 4..])) == res + Decode(s[j + 4..]);
        i := j + 4;
      }
    }
    DecodeEmpty(s);
  }

  lemma DecodeEmpty(s: string)
    ensures Decode(s[|s|..]) == ""
  {
  }

  // ---------- Escaping ----------

  /** The ways to write a character in a quoted value. */
  datatype Form = Plain(c: char) | Backslash(c: char) | Octal(c: char)

  predicate Writable(f: Form) {
    match f
    case Plain(c) => c != '\\'
    case Backslash(c) => c != '\n' && !('0' <= c <= '3')
    case Octal(c) => c as int < 256
  }

  function Char8(n: nat): char
    requires n < 8
  {
    ['0', '1', '2', '3', '4', '5', '6', '7'][n]
  }

  function Write(f: Form): string
    requires Writable(f)
  {
    match f
    case Plain(c) => [c]
    case Backslash(c) => ['\\', c]
    case Octal(c) => ['\\', Char8(c as int / 64), Char8(c as int / 8 % 8), Char8(c as int % 8)]
  }

  function Written(fs: seq<Form>): string
    requires forall i | 0 <= i < |fs| :: Writable(fs[i])
  {
    if fs == [] then "" else Write(fs[0]) + Written(fs[1..])
  }

  function TextOf(fs: seq<Form>): string {
    if fs == [] then "" else [fs[0].c] + TextOf(fs[1..])
  }

  lemma Char8Back(n: nat)
    requires n < 8
    ensures IsOctal(Char8(n)) && Digit8(Char8(n)) == n && (n < 4 ==> Char8(n) <= '3')
  {
  }

  lemma OctalBack(c: char)
    requires c as int < 256
    ensures
      var w := Write(Octal(c));
      OctalAt(w, 0) && OctalChar(w[1], w[2], w[3]) == c
  {
    hide Char8, Digit8;
    var n := c as int;
    Char8Back(n / 64);
    Char8Back(n / 8 % 8);
    Char8Back(n % 8);
    assert 64 * (n / 64) + 8 * (n / 8 % 8) + n % 8 == n;
  }

  /** Decoding undoes every escaping, character by character as it was chosen. */
  lemma {:induction false} DecodeWritten(fs: seq<Form>)
    requires forall i | 0 <= i < |fs| :: Writable(fs[i])
    ensures Decode(Written(fs)) == TextOf(fs)
  {
    if fs != [] {
      var rest := Written(fs[1..]);
      var s := Write(fs[0]) + rest;
      DecodeWritten(fs[1..]);
      match fs[0]
      case Plain(c) =>
        assert s[1..] == rest;
      case Backslash(c) =>
        assert s[2..] == rest && !OctalAt(s, 0);
      case Octal(c) =>
        OctalBack(c);
        assert s[4..] == rest;
    }
  }

  /** A backslash and three octal digits stand for the character of that number, also in front of other text. */
  lemma OctalSpelled(a: nat, b: nat, c: nat, rest: string)
    requires a < 4 && b < 8 && c < 8
    ensures
      var digits := "01234567";
      Decode(['\\', digits[a], digits[b], digits[c]] + rest) == [(64 * a + 8 * b + c) as char] + Decode(rest)
  {
    var digits := "01234567";
    var s := ['\\', digits[a], digits[b], digits[c]] + rest;
    assert s[4..] == rest && OctalAt(s, 0);
    assert Digit8(digits[a]) == a && Digit8(digits[b]) == b && Digit8(digits[c]) == c;
  }

  lemma UnquoteWritten(fs: seq<Form>)
    requires forall i | 0 <= i < |fs| :: Writable(fs[i])
    ensures Unquoted("\"" + Written(fs) + "\"") == TextOf(fs)
  {
    DecodeWritten(fs);
    var s := "\"" + Written(fs) + "\"";
    assert s[1..|s| - 1] == Written(fs);
  }

  // ---------- Headers ----------

  /** The white space that `str.strip` removes. */
  predicate IsSpace(c: char) {
    var n := c as int;
    || 9 <= n <= 13 || 28 <= n <= 32 || n == 0x85 || n == 0xa0 || n == 0x1680 || 0x2000 <= n <= 0x200a
    || n == 0x2028 || n == 0x2029 || n == 0x202f || n == 0x205f || n == 0x3000
  }

  /** Blanks, tabs, line ends and the separators of ASCII are white space, and no other ASCII character is. */
  lemma SpaceSpelled(c: char)
    requires c as int < 128
    ensures IsSpace(c) <==>
      c == ' ' || c == '\t' || c == '\n' || c == '\r' || c as int == 11 || c as int == 12 || 28 <= c as int <= 31
  {
  }

  function StripLeft(s: string): string {
    if s != "" && IsSpace(s[0]) then StripLeft(s[1..]) else s
  }

  function StripRight(s: string): string {
    if s != "" && IsSpace(s[|s| - 1]) then StripRight(s[..|s| - 1]) else s
  }

  function Strip(s: string): string {
    StripRight(StripLeft(s))
  }

  /** Up to the first `sep`, or the whole of `s`. */
  function Before(s: string, sep: char): string {
    if s == "" || s[0] == sep then "" else [s[0]] + Before(s[1..], sep)
  }

  /** `s.split(sep)` */
  function Split(s: string, sep: char): (parts: seq<string>)
    ensures parts != []
    decreases |s|
  {
    var first := Before(s, sep);
    BeforeIsPrefix(s, sep);
    if |first| == |s| then [s] else [first] + Split(s[|first| + 1..], sep)
  }

  lemma {:induction false} BeforeIsPrefix(s: string, sep: char)
    ensures Before(s, sep) <= s && sep !in Before(s, sep)
    ensures |Before(s, sep)| < |s| ==> s[|Before(s, sep)|] == sep
  {
    if s != "" && s[0] != sep { BeforeIsPrefix(s[1..], sep); }
  }

  /** The name and the value of one chunk; without a `=` the name is empty. */
  function Chunk(chunk: string): (string, string) {
    BeforeIsPrefix(chunk, '=');
    var key := Before(chunk, '=');
    if |key| < |chunk| then (Strip(key), Strip(chunk[|key| + 1..])) else ("", Strip(chunk))
  }

  function Chunks(chunks: seq<string>): map<string, string> {
    if chunks == [] then map[]
    else
      var before := Chunks(chunks[..|chunks| - 1]);
      var (key, val) := Chunk(chunks[|chunks| - 1]);
      if key == "" && val == "" then before else before[key := Unquoted(val)]
  }

  method ParseCookie(cookie: string) returns (retval: map<string, string>)
    ensures retval == Chunks(Split(cookie, ';'))
  {
    hide Chunk, Split, Unquoted;
    retval := map[];
    var chunks := Split(cookie, ';');
    for i := 0 to |chunks|
      invariant retval == Chunks(chunks[..i])
    {
      assert chunks[..i + 1][..i] == chunks[..i];
      var (key, val) := Chunk(chunks[i]);
      if key != "" || val != "" {
        var value := UnquoteCookie(Some(val));
        retval := retval[key := value.value];
      }
    }
    assert chunks[..|chunks|] == chunks;
  }

  // ---------- From a map to a header and back ----------

  /** A value in quotes, in some escaping, or as it is. */
  datatype Value = Quoted(forms: seq<Form>) | Bare(text: string)

  /** A name, its value, and the white space around both; or a value alone, without `=`. */
  datatype Crumb =
    | Crumb(name: string, value: Value, pads: (string, string, string, string))
    | Lone(value: Value, before: string, after: string)

  predicate Spaces(s: string) {
    forall i | 0 <= i < |s| :: IsSpace(s[i])
  }

  predicate Trimmed(s: string) {
    s != "" ==> !IsSpace(s[0]) && !IsSpace(s[|s| - 1])
  }

  /** A bare value is no quoted one, and a value alone has no `=`. */
  predicate Sendable(c: Crumb) {
    && ValueOk(c.value)
    && match c
       case Crumb(name, _, pads) =>
         && Trimmed(name) && '=' !in name && ';' !in name
         && Spaces(pads.0) && Spaces(pads.1) && Spaces(pads.2) && Spaces(pads.3)
       case Lone(v, before, after) => Spaces(before) && Spaces(after) && '=' !in Raw(v)
  }

  predicate ValueOk(v: Value) {
    match v
    case Quoted(fs) => NoSemicolons(fs)
    case Bare(t) => Trimmed(t) && ';' !in t && !IsQuoted(t)
  }

  function NameOf(c: Crumb): string {
    if c.Crumb? then c.name else ""
  }

  predicate NoSemicolons(fs: seq<Form>) {
    forall i | 0 <= i < |fs| :: Writable(fs[i]) && fs[i] != Plain(';') && fs[i] != Backslash(';')
  }

  /** The value as it stands in the header. */
  function Raw(v: Value): string
    requires v.Quoted? ==> NoSemicolons(v.forms)
  {
    match v
    case Quoted(fs) => "\"" + Written(fs) + "\""
    case Bare(t) => t
  }

  function Meaning(v: Value): string {
    match v
    case Quoted(fs) => TextOf(fs)
    case Bare(t) => t
  }

  function Shown(c: Crumb): string
    requires Sendable(c)
  {
    match c
    case Crumb(name, v, pads) => pads.0 + name + pads.1 + "=" + pads.2 + Raw(v) + pads.3
    case Lone(v, before, after) => before + Raw(v) + after
  }

  function Joined(parts: seq<string>): string
    requires parts != []
  {
    if |parts| == 1 then parts[0] else parts[0] + ";" + Joined(parts[1..])
  }

  /** Later cookies of a name replace earlier ones; one without name and value is none. */
  function MapOf(cs: seq<Crumb>): map<string, string> {
    if cs == [] then map[]
    else
      var before, c := MapOf(cs[..|cs| - 1]), cs[|cs| - 1];
      if NameOf(c) == "" && c.value == Bare("") then before else before[NameOf(c) := Meaning(c.value)]
  }

  lemma {:induction false} StripLeftPads(p: string, s: string)
    requires Spaces(p) && (s != "" ==> !IsSpace(s[0]))
    ensures StripLeft(p + s) == s
  {
    if p == "" {
      assert p + s == s;
    } else {
      assert (p + s)[1..] == p[1..] + s;
      StripLeftPads(p[1..], s);
    }
  }

  lemma {:induction false} StripRightPads(s: string, p: string)
    requires Spaces(p) && (s != "" ==> !IsSpace(s[|s| - 1]))
    ensures StripRight(s + p) == s
  {
    if p == "" {
      assert s + p == s;
    } else {
      assert (s + p)[..|s + p| - 1] == s + p[..|p| - 1];
      StripRightPads(s, p[..|p| - 1]);
    }
  }

  lemma StripPads(p: string, s: string, q: string)
    requires Spaces(p) && Spaces(q) && Trimmed(s)
    ensures Strip(p + s + q) == s
  {
    if s == "" {
      assert p + s + q == (p + q) + "";
      StripLeftPads(p + q, "");
    } else {
      assert p + s + q == p + (s + q);
      StripLeftPads(p, s + q);
      StripRightPads(s, q);
    }
  }

  lemma {:induction false} BeforeSep(s: string, sep: char, t: string)
    requires sep !in s
    ensures Before(s + [sep] + t, sep) == s && Before(s, sep) == s
  {
    if s == "" {
      assert s + [sep] + t == [sep] + t;
    } else {
      assert (s + [sep] + t)[1..] == s[1..] + [sep] + t;
      BeforeSep(s[1..], sep, t);
    }
  }

  lemma {:induction false} SplitJoined(parts: seq<string>)
    requires parts != [] && forall i | 0 <= i < |parts| :: ';' !in parts[i]
    ensures Split(Joined(parts), ';') == parts
  {
    BeforeSep(parts[0], ';', if |parts| == 1 then "" else Joined(parts[1..]));
    if |parts| > 1 {
      SplitJoined(parts[1..]);
      assert Joined(parts)[|parts[0]| + 1..] == Joined(parts[1..]);
    }
  }

  lemma {:induction false} WrittenNoSemicolon(fs: seq<Form>)
    requires NoSemicolons(fs)
    ensures ';' !in Written(fs)
  {
    hide Char8;
    forall n: nat | n < 8 ensures Char8(n) != ';' { Char8Back(n); }
    if fs != [] { WrittenNoSemicolon(fs[1..]); }
  }

  lemma NoSeparators(p: string)
    requires Spaces(p)
    ensures ';' !in p && '=' !in p
  {
  }

  lemma QuotesTrimmed(s: string)
    ensures Trimmed("\"" + s + "\"")
  {
  }

  lemma RawIsTrimmed(c: Crumb)
    requires Sendable(c)
    ensures Trimmed(Raw(c.value)) && ';' !in Raw(c.value) && Unquoted(Raw(c.value)) == Meaning(c.value)
    ensures Raw(c.value) == "" <==> c.value == Bare("")
  {
    hide Written, IsSpace;
    match c.value
    case Quoted(fs) =>
      WrittenNoSemicolon(fs);
      QuotesTrimmed(Written(fs));
      UnquoteWritten(fs);
    case Bare(_) =>
  }

  lemma ShownBack(c: Crumb)
    requires Sendable(c)
    ensures ';' !in Shown(c)
    ensures Chunk(Shown(c)) == (NameOf(c), Raw(c.value))
  {
    match c
    case Crumb(_, _, _) => NamedBack(c);
    case Lone(_, _, _) => LoneBack(c);
  }

  lemma LoneBack(c: Crumb)
    requires Sendable(c) && c.Lone?
    ensures ';' !in Shown(c)
    ensures Chunk(Shown(c)) == ("", Raw(c.value))
  {
    hide Raw, Strip, IsSpace, Before;
    RawIsTrimmed(c);
    NoSeparators(c.before);
    NoSeparators(c.after);
    assert '=' !in Shown(c);
    BeforeSep(Shown(c), '=', "");
    StripPads(c.before, Raw(c.value), c.after);
  }

  lemma NamedBack(c: Crumb)
    requires Sendable(c) && c.Crumb?
    ensures ';' !in Shown(c)
    ensures Chunk(Shown(c)) == (c.name, Raw(c.value))
  {
    hide Raw, Strip, IsSpace, Before;
    RawIsTrimmed(c);
    NoSeparators(c.pads.0);
    NoSeparators(c.pads.1);
    NoSeparators(c.pads.2);
    NoSeparators(c.pads.3);
    var left := c.pads.0 + c.name + c.pads.1;
    var right := c.pads.2 + Raw(c.value) + c.pads.3;
    assert Shown(c) == left + ['='] + right;
    assert '=' !in left;
    BeforeSep(left, '=', right);
    assert Shown(c)[|left| + 1..] == right;
    StripPads(c.pads.0, c.name, c.pads.1);
    StripPads(c.pads.2, Raw(c.value), c.pads.3);
  }

  function ShownAll(cs: seq<Crumb>): (parts: seq<string>)
    requires forall i | 0 <= i < |cs| :: Sendable(cs[i])
    ensures |parts| == |cs| && forall i | 0 <= i < |cs| :: parts[i] == Shown(cs[i])
  {
    if cs == [] then [] else [Shown(cs[0])] + ShownAll(cs[1..])
  }

  lemma {:induction false} ChunksAreMap(cs: seq<Crumb>)
    requires forall i | 0 <= i < |cs| :: Sendable(cs[i])
    ensures Chunks(ShownAll(cs)) == MapOf(cs)
  {
    hide Chunk, Unquoted, Sendable, Shown, Raw, Meaning;
    if cs != [] {
      var last := |cs| - 1;
      ChunksAreMap(cs[..last]);
      assert ShownAll(cs)[..last] == ShownAll(cs[..last]);
      ShownBack(cs[last]);
      RawIsTrimmed(cs[last]);
    }
  }

  /** A header with any number of cookies, named or not, quoted in any escaping or bare, and in any spacing,
      gives the map back. */
  lemma HeaderBack(cs: seq<Crumb>)
    requires cs != [] && forall i | 0 <= i < |cs| :: Sendable(cs[i])
    ensures Chunks(Split(Joined(ShownAll(cs)), ';')) == MapOf(cs)
  {
    forall i | 0 <= i < |cs| ensures ';' !in ShownAll(cs)[i] { ShownBack(cs[i]); }
    SplitJoined(ShownAll(cs));
    ChunksAreMap(cs);
  }

  predicate Visible(s: string) {
    s != "" && forall i | 0 <= i < |s| :: ' ' < s[i] < '\U{0080}' && s[i] != ';' && s[i] != '=' && s[i] != '"'
  }

  lemma VisibleTrimmed(s: string)
    requires Visible(s)
    ensures s != "" && Trimmed(s) && ';' !in s && '=' !in s && !IsQuoted(s)
  {
    SpaceSpelled(s[0]);
    SpaceSpelled(s[|s| - 1]);
  }

  /** The usual header: names and values without blanks, quotes or separators, one blank after each semicolon. */
  lemma UsualHeader(n1: string, v1: string, n2: string, v2: string)
    requires Visible(n1) && Visible(v1) && Visible(n2) && Visible(v2)
    ensures Chunks(Split(n1 + "=" + v1 + "; " + n2 + "=" + v2, ';')) == map[n1 := v1][n2 := v2]
  {
    hide Visible, Chunks, Split, IsSpace, Trimmed, IsQuoted, Shown;
    var c, d := Crumb(n1, Bare(v1), ("", "", "", "")), Crumb(n2, Bare(v2), (" ", "", "", ""));
    SpaceSpelled(' ');
    VisibleTrimmed(n1);
    VisibleTrimmed(v1);
    VisibleTrimmed(n2);
    VisibleTrimmed(v2);
    assert Sendable(c) && Sendable(d);
    HeaderBack([c, d]);
    assert [c, d][1..] == [d] && [d][1..] == [];
    assert ShownAll([d]) == [Shown(d)] && ShownAll([c, d]) == [Shown(c), Shown(d)];
    MapOfTwo(c, d);
    ShownUsual(n1, v1, n2, v2);
  }

  lemma ShownUsual(n1: string, v1: string, n2: string, v2: string)
    requires Sendable(Crumb(n1, Bare(v1), ("", "", "", ""))) && Sendable(Crumb(n2, Bare(v2), (" ", "", "", "")))
    ensures Joined([Shown(Crumb(n1, Bare(v1), ("", "", "", ""))), Shown(Crumb(n2, Bare(v2), (" ", "", "", "")))])
         == n1 + "=" + v1 + "; " + n2 + "=" + v2
  {
    hide Sendable;
    var x, y := Shown(Crumb(n1, Bare(v1), ("", "", "", ""))), Shown(Crumb(n2, Bare(v2), (" ", "", "", "")));
    assert x == n1 + "=" + v1 && y == " " + n2 + "=" + v2;
    assert [x, y][1..] == [y] && Joined([y]) == y;
    assert "; " == ";" + " ";
  }

  lemma MapOfTwo(c: Crumb, d: Crumb)
    requires NameOf(c) != "" && NameOf(d) != ""
    ensures MapOf([c, d]) == map[NameOf(c) := Meaning(c.value)][NameOf(d) := Meaning(d.value)]
  {
    assert [c, d][..1] == [c] && [c][..0] == [];
    assert MapOf([c]) == map[NameOf(c) := Meaning(c.value)];
  }

  // ---------- Any text can be sent ----------

  /** One escaping that serves every text: a semicolon in octal, quotes and backslashes escaped. */
  function Safe(t: string): (fs: seq<Form>)
    ensures |fs| == |t|
  {
    if t == "" then []
    else
      [if t[0] == ';' then Octal(t[0]) else if t[0] == '"' || t[0] == '\\' then Backslash(t[0]) else Plain(t[0])]
      + Safe(t[1..])
  }

  lemma {:induction false} SafeIsSendable(name: string, t: string)
    requires Trimmed(name) && '=' !in name && ';' !in name
    ensures Sendable(Crumb(name, Quoted(Safe(t)), ("", "", "", "")))
    ensures TextOf(Safe(t)) == t
  {
    if t != "" { SafeIsSendable(name, t[1..]); }
  }

  /** Every text whatsoever comes back from a cookie. */
  lemma AnyTextBack(name: string, t: string)
    requires Trimmed(name) && '=' !in name && ';' !in name
    ensures
      var c := Crumb(name, Quoted(Safe(t)), ("", "", "", ""));
      Sendable(c) && Chunks(Split(Shown(c), ';')) == map[name := t]
  {
    SafeIsSendable(name, t);
    var c := Crumb(name, Quoted(Safe(t)), ("", "", "", ""));
    HeaderBack([c]);
    assert [c][..0] == [];
    assert MapOf([c]) == map[name := t];
  }
}
