/**
 * `_parse_limit` of `rate_limit.py`: the limit strings `"200/minute"`, `"10 per second"`, ...
 *
 * The source matches, ignoring case,
 *   spaces, digits, spaces, an optional separator ("/" or [spaces] ["/"] spaces "per" spaces),
 *   spaces, one of second|minute|hour|day, an optional plural "s", spaces, end of input.
 * Here that language is written as a syntax tree (`LimitSyntax`) and its rendering (`Render`),
 * one tree per accepted string: adjacent runs of spaces are merged into one field. The
 * parser returns the tree; it is proved to accept exactly the strings some well-formed
 * tree renders to, so every other string is the source's `ValueError`.
 */
module LimitFormat {
  import opened Wrappers
  import opened Text
  import opened RateLimit

  datatype Unit = Second | Minute | Hour | Day

  function UnitWord(u: Unit): string {
    match u
    case Second => "second"
    case Minute => "minute"
    case Hour => "hour"
    case Day => "day"
  }

  /** The `unit_seconds` table. */
  function UnitSeconds(u: Unit): nat {
    match u
    case Second => 1
    case Minute => 60
    case Hour => 3600
    case Day => 86400
  }

  /** What stands between the amount's trailing spaces and the unit. */
  datatype Separator =
    | Adjacent                                              // nothing
    | Slash(after: string)                                  // "/" spaces
    | Per(slash: Option<string>, perText: string, after: string)  // ["/" spaces] "per" spaces

  datatype LimitSyntax = LimitSyntax(
    lead: string, digits: string, gap: string, sep: Separator,
    unit: Unit, unitText: string, plural: string, trail: string)

  predicate WellFormedSeparator(sep: Separator) {
    match sep
    case Adjacent => true
    case Slash(a) => AllSpace(a)
    case Per(slash, p, a) =>
      (slash.Some? ==> AllSpace(slash.value)) && EqualsIgnoreCase(p, "per") && a != [] && AllSpace(a)
  }

  predicate WellFormed(t: LimitSyntax) {
    && AllSpace(t.lead)
    && t.digits != [] && AllDigits(t.digits)
    && AllSpace(t.gap)
    && WellFormedSeparator(t.sep)
    && EqualsIgnoreCase(t.unitText, UnitWord(t.unit))
    && t.plural in {"", "s", "S"}
    && AllSpace(t.trail)
  }

  function RenderSeparator(sep: Separator): string {
    match sep
    case Adjacent => ""
    case Slash(a) => "/" + a
    case Per(None, p, a) => p + a
    case Per(Some(w), p, a) => "/" + (w + (p + a))
  }

  /** The unit word and what follows it. */
  function RenderUnit(t: LimitSyntax): string {
    t.unitText + (t.plural + t.trail)
  }

  /** The separator and what follows it. */
  function RenderTail(t: LimitSyntax): string {
    RenderSeparator(t.sep) + RenderUnit(t)
  }

  function Render(t: LimitSyntax): string {
    t.lead + (t.digits + (t.gap + RenderTail(t)))
  }

  /** A string in the limit language. */
  ghost predicate Grammatical(s: string) {
    exists t :: WellFormed(t) && Render(t) == s
  }

  /** The config a limit string stands for: `int(group(1))` and the unit's seconds. */
  function ConfigOf(t: LimitSyntax): RateLimitConfig
    requires AllDigits(t.digits)
  {
    RateLimitConfig(DigitsValue(t.digits), UnitSeconds(t.unit))
  }

  /** `"per"` in any case followed by at least one space, at the front of `s`: the word, the
      spaces, and what follows them. */
  function ParsePer(s: string): (r: Option<(string, string, string)>)
    ensures r.Some? ==> EqualsIgnoreCase(r.value.0, "per") && r.value.1 != [] && AllSpace(r.value.1)
    ensures r.Some? ==> r.value.0 + (r.value.1 + r.value.2) == s
  {
    if StartsWithIgnoreCase(s, "per") then
      var after := s[3..];
      var a := SpaceSpan(after);
      if a == 0 then None
      else
        assert after == after[..a] + after[a..];
        assert s == s[..3] + after;
        Some((s[..3], after[..a], after[a..]))
    else None
  }

  /** `"/"`, the spaces `w`, then `"per"` and spaces at the front of `rest`. */
  function SlashPer(w: string, rest: string): (r: Option<(Separator, string)>)
    requires AllSpace(w)
    ensures r.Some? ==> WellFormedSeparator(r.value.0) && RenderSeparator(r.value.0) + r.value.1 == "/" + (w + rest)
  {
    match ParsePer(rest)
    case None => None
    case Some((p, a, tail)) =>
      var sep := Per(Some(w), p, a);
      assert RenderSeparator(sep) + tail == "/" + (w + (p + a)) + tail;
      assert (p + a) + tail == rest;
      Some((sep, tail))
  }

  /** What follows a `"/"`: spaces, then either `"per"` and spaces, or the unit. */
  function ParseAfterSlash(r: string): (res: Option<(Separator, string)>)
    ensures res.Some? ==> WellFormedSeparator(res.value.0) && RenderSeparator(res.value.0) + res.value.1 == "/" + r
  {
    var w := SpaceSpan(r);
    var rest := r[w..];
    assert r == r[..w] + rest;
    if StartsWithIgnoreCase(rest, "per") then SlashPer(r[..w], rest)
    else Some((Slash(r[..w]), rest))
  }

  /** The separator at the front of `s`, if any, and what follows it. */
  function ParseSeparator(s: string): (r: Option<(Separator, string)>)
    ensures r.Some? ==> WellFormedSeparator(r.value.0) && RenderSeparator(r.value.0) + r.value.1 == s
  {
    if s != [] && s[0] == '/' then
      var after := s[1..];
      assert "/" + after == s;
      ParseAfterSlash(after)
    else if StartsWithIgnoreCase(s, "per") then
      match ParsePer(s)
      case None => None
      case Some((p, a, tail)) =>
        var sep := Per(None, p, a);
        assert RenderSeparator(sep) == p + a;
        assert (p + a) + tail == p + (a + tail) == s;
        Some((sep, tail))
    else
      assert RenderSeparator(Adjacent) + s == s;
      Some((Adjacent, s))
  }
  /** The unit word at the front of `s`, in whatever case, and what follows it. */
  function ParseUnitWord(s: string): (r: Option<(Unit, string, string)>)
    ensures r.Some? ==> EqualsIgnoreCase(r.value.1, UnitWord(r.value.0)) && r.value.1 + r.value.2 == s
  {
    if StartsWithIgnoreCase(s, "second") then Some((Second, s[..6], s[6..]))
    else if StartsWithIgnoreCase(s, "minute") then Some((Minute, s[..6], s[6..]))
    else if StartsWithIgnoreCase(s, "hour") then Some((Hour, s[..4], s[4..]))
    else if StartsWithIgnoreCase(s, "day") then Some((Day, s[..3], s[3..]))
    else None
  }

  /** The optional plural `s` and the trailing spaces, which must reach the end of `s`. */
  function ParseEnd(s: string): (r: Option<(string, string)>)
    ensures r.Some? ==> r.value.0 in {"", "s", "S"} && AllSpace(r.value.1) && r.value.0 + r.value.1 == s
  {
    var p := if s != [] && (s[0] == 's' || s[0] == 'S') then 1 else 0;
    var rest := s[p..];
    if SpaceSpan(rest) == |rest| then
      assert rest[..|rest|] == rest;
      assert s == s[..p] + rest;
      assert p == 1 ==> s[..p] == [s[0]];
      Some((s[..p], rest))
    else None
  }

  /** The unit word, the plural and the trailing spaces. */
  function ParseUnit(s: string): (r: Option<(Unit, string, string, string)>)
    ensures r.Some? ==> var (u, text, plural, trail) := r.value;
      && EqualsIgnoreCase(text, UnitWord(u)) && plural in {"", "s", "S"} && AllSpace(trail)
      && text + (plural + trail) == s
  {
    match ParseUnitWord(s)
    case None => None
    case Some((u, text, rest)) =>
      match ParseEnd(rest)
      case None => None
      case Some((plural, trail)) => Some((u, text, plural, trail))
  }

  /** The rest of the match once the leading spaces, the digits and the spaces after them
      are known: the separator, then the unit. */
  function ParseRest(lead: string, digits: string, gap: string, s: string): (r: Option<LimitSyntax>)
    requires AllSpace(lead) && digits != [] && AllDigits(digits) && AllSpace(gap)
    ensures r.Some? ==> WellFormed(r.value) && Render(r.value) == lead + (digits + (gap + s))
  {
    match ParseSeparator(s)
    case None => None
    case Some((sep, rest)) =>
      match ParseUnit(rest)
      case None => None
      case Some((unit, text, plural, trail)) =>
        var t := LimitSyntax(lead, digits, gap, sep, unit, text, plural, trail);
        assert RenderUnit(t) == rest;
        assert RenderTail(t) == s;
        Some(t)
  }

  /** The digits of the amount and the spaces after them, once the leading spaces are known. */
  function ParseAmount(lead: string, s: string): (r: Option<LimitSyntax>)
    requires AllSpace(lead)
    ensures r.Some? ==> WellFormed(r.value) && Render(r.value) == lead + s
  {
    var d := DigitSpan(s);
    if d == 0 then None
    else
      var digits, r := s[..d], s[d..];
      var g := SpaceSpan(r);
      var gap, tail := r[..g], r[g..];
      assert gap + tail == r;
      assert digits + (gap + tail) == s;
      ParseRest(lead, digits, gap, tail)
  }

  /** The matching step of `_parse_limit`: the syntax tree of `s`, or `None` when the pattern fails. */
  function ParseSyntax(s: string): (r: Option<LimitSyntax>)
    ensures r.Some? ==> WellFormed(r.value) && Render(r.value) == s
  {
    var l := SpaceSpan(s);
    assert s == s[..l] + s[l..];
    ParseAmount(s[..l], s[l..])
  }

  /** `_parse_limit`: the config, or the source's `ValueError` message. */
  function ParseLimit(s: string): (r: Result<RateLimitConfig, string>)
    ensures r.Ok? ==> r.value.amount >= 0 && r.value.windowSeconds in {1, 60, 3600, 86400}
    ensures r.Err? ==> r.error == "Invalid rate limit format: " + s
  {
    match ParseSyntax(s)
    case None => Err("Invalid rate limit format: " + s)
    case Some(t) => Ok(ConfigOf(t))
  }

  /** The first character of a unit word, in either case. */
  predicate UnitStart(c: char) {
    LowerChar(c) in {'s', 'm', 'h', 'd'}
  }

  lemma ParseUnitWordOf(text: string, u: Unit, rest: string)
    requires EqualsIgnoreCase(text, UnitWord(u))
    ensures ParseUnitWord(text + rest) == Some((u, text, rest))
  {
    var s := text + rest;
    assert s[..|text|] == text && s[|text|..] == rest;
    assert LowerChar(s[0]) == UnitWord(u)[0];
    assert StartsWithIgnoreCase(s, UnitWord(u));
  }

  lemma ParsePerOf(p: string, a: string, rest: string)
    requires EqualsIgnoreCase(p, "per") && a != [] && AllSpace(a)
    requires rest != [] ==> !IsSpace(rest[0])
    ensures ParsePer(p + (a + rest)) == Some((p, a, rest))
  {
    var s := p + (a + rest);
    assert forall i :: 0 <= i < 3 ==> s[i] == p[i];
    assert s[..3] == p && s[3..] == a + rest;
    SpaceSpanOf(a, rest);
    assert (a + rest)[..|a|] == a && (a + rest)[|a|..] == rest;
  }

  /** A unit word starts neither with a space, nor with `"/"`, nor with `"per"`. */
  lemma UnitStartFacts(s: string)
    requires s != [] && UnitStart(s[0])
    ensures !IsSpace(s[0]) && s[0] != '/' && !StartsWithIgnoreCase(s, "per")
  {
    assert LowerChar(s[0]) != 'p';
  }

  lemma ParseAfterSlashOf(a: string, rest: string)
    requires AllSpace(a)
    requires rest != [] && UnitStart(rest[0])
    ensures ParseAfterSlash(a + rest) == Some((Slash(a), rest))
  {
    UnitStartFacts(rest);
    SpaceSpanOf(a, rest);
    assert (a + rest)[..|a|] == a && (a + rest)[|a|..] == rest;
  }

  lemma ParseAfterSlashPerOf(w: string, p: string, a: string, rest: string)
    requires AllSpace(w) && EqualsIgnoreCase(p, "per") && a != [] && AllSpace(a)
    requires rest != [] && UnitStart(rest[0])
    ensures ParseAfterSlash(w + (p + (a + rest))) == Some((Per(Some(w), p, a), rest))
  {
    var pr := p + (a + rest);
    assert pr[0] == p[0];
    SpaceSpanOf(w, pr);
    assert (w + pr)[..|w|] == w && (w + pr)[|w|..] == pr;
    assert forall i :: 0 <= i < 3 ==> pr[i] == p[i];
    UnitStartFacts(rest);
    ParsePerOf(p, a, rest);
  }

  lemma ParseAdjacentOf(rest: string)
    requires rest != [] && UnitStart(rest[0])
    ensures ParseSeparator(RenderSeparator(Adjacent) + rest) == Some((Adjacent, rest))
  {
    UnitStartFacts(rest);
    assert RenderSeparator(Adjacent) + rest == rest;
  }

  lemma ParseSlashOf(a: string, rest: string)
    requires AllSpace(a)
    requires rest != [] && UnitStart(rest[0])
    ensures ParseSeparator(RenderSeparator(Slash(a)) + rest) == Some((Slash(a), rest))
  {
    var s := RenderSeparator(Slash(a)) + rest;
    assert s == "/" + (a + rest);
    assert s[0] == '/' && s[1..] == a + rest;
    ParseAfterSlashOf(a, rest);
  }

  lemma ParseBarePerOf(p: string, a: string, rest: string)
    requires EqualsIgnoreCase(p, "per") && a != [] && AllSpace(a)
    requires rest != [] && UnitStart(rest[0])
    ensures ParseSeparator(RenderSeparator(Per(None, p, a)) + rest) == Some((Per(None, p, a), rest))
  {
    var s := RenderSeparator(Per(None, p, a)) + rest;
    assert s == p + (a + rest);
    assert forall i :: 0 <= i < 3 ==> s[i] == p[i];
    UnitStartFacts(rest);
    ParsePerOf(p, a, rest);
  }

  lemma ParseSlashPerOf(w: string, p: string, a: string, rest: string)
    requires AllSpace(w) && EqualsIgnoreCase(p, "per") && a != [] && AllSpace(a)
    requires rest != [] && UnitStart(rest[0])
    ensures ParseSeparator(RenderSeparator(Per(Some(w), p, a)) + rest) == Some((Per(Some(w), p, a), rest))
  {
    var s := RenderSeparator(Per(Some(w), p, a)) + rest;
    assert s == "/" + (w + (p + (a + rest)));
    assert s[0] == '/' && s[1..] == w + (p + (a + rest));
    ParseAfterSlashPerOf(w, p, a, rest);
  }

  lemma ParseSeparatorOf(sep: Separator, rest: string)
    requires WellFormedSeparator(sep)
    requires rest != [] && UnitStart(rest[0])
    ensures ParseSeparator(RenderSeparator(sep) + rest) == Some((sep, rest))
  {
    match sep
    case Adjacent => ParseAdjacentOf(rest);
    case Slash(a) => ParseSlashOf(a, rest);
    case Per(None, p, a) => ParseBarePerOf(p, a, rest);
    case Per(Some(w), p, a) => ParseSlashPerOf(w, p, a, rest);
  }

  lemma ParseEndOf(plural: string, trail: string)
    requires plural in {"", "s", "S"} && AllSpace(trail)
    ensures ParseEnd(plural + trail) == Some((plural, trail))
  {
    var s := plural + trail;
    if plural == "" {
      assert s == trail && s[0..] == trail && s[..0] == plural;
    } else {
      assert s[0] == plural[0];
      assert s[1..] == trail && s[..1] == plural;
    }
    SpaceSpanOf(trail, []);
    assert trail + [] == trail;
  }

  lemma ParseUnitOf(t: LimitSyntax)
    requires WellFormed(t)
    ensures ParseUnit(RenderUnit(t)) == Some((t.unit, t.unitText, t.plural, t.trail))
  {
    ParseUnitWordOf(t.unitText, t.unit, t.plural + t.trail);
    ParseEndOf(t.plural, t.trail);
  }

  lemma ParseRestOf(t: LimitSyntax)
    requires WellFormed(t)
    ensures ParseRest(t.lead, t.digits, t.gap, RenderTail(t)) == Some(t)
  {
    var u := RenderUnit(t);
    assert u[0] == t.unitText[0];
    assert LowerChar(u[0]) == UnitWord(t.unit)[0];
    ParseSeparatorOf(t.sep, u);
    ParseUnitOf(t);
  }

  /** The separator and the unit start neither with a space nor with a digit. */
  lemma TailStart(t: LimitSyntax)
    requires WellFormed(t)
    ensures var z := RenderTail(t); z != [] && !IsSpace(z[0]) && !IsDigit(z[0])
  {
    var u := RenderUnit(t);
    assert u[0] == t.unitText[0];
    assert LowerChar(u[0]) == UnitWord(t.unit)[0];
    var z := RenderTail(t);
    match t.sep
    case Adjacent => assert z == u;
    case Slash(_) =>
    case Per(None, p, a) => assert z[0] == p[0] && LowerChar(p[0]) == 'p';
    case Per(Some(_), _, _) =>
  }

  lemma ParseAmountOf(t: LimitSyntax)
    requires WellFormed(t)
    ensures ParseAmount(t.lead, t.digits + (t.gap + RenderTail(t))) == Some(t)
  {
    var z := RenderTail(t);
    TailStart(t);
    var y := t.gap + z;
    assert y[0] == if t.gap != [] then t.gap[0] else z[0];
    var x := t.digits + y;
    DigitSpanOf(t.digits, y);
    assert x[|t.digits|..] == y && x[..|t.digits|] == t.digits;
    SpaceSpanOf(t.gap, z);
    assert y[|t.gap|..] == z && y[..|t.gap|] == t.gap;
    ParseRestOf(t);
  }

  /** Every well-formed tree is parsed back to itself. */
  lemma ParseSyntaxOfRender(t: LimitSyntax)
    requires WellFormed(t)
    ensures ParseSyntax(Render(t)) == Some(t)
  {
    var x := t.digits + (t.gap + RenderTail(t));
    var s := t.lead + x;
    assert x[0] == t.digits[0];
    SpaceSpanOf(t.lead, x);
    assert s[|t.lead|..] == x && s[..|t.lead|] == t.lead;
    ParseAmountOf(t);
  }

  /** Whatever `_parse_limit` accepts is in the limit language, with the amount and unit it names. */
  lemma ParseLimitSound(s: string)
    requires ParseLimit(s).Ok?
    ensures exists t :: WellFormed(t) && Render(t) == s && ParseLimit(s).value == ConfigOf(t)
  {
    var t := ParseSyntax(s).value;
    assert WellFormed(t) && Render(t) == s;
  }

  /** Every string of the limit language is accepted, with the amount and unit it names. */
  lemma ParseLimitComplete(t: LimitSyntax)
    requires WellFormed(t)
    ensures ParseLimit(Render(t)) == Ok(ConfigOf(t))
  {
    ParseSyntaxOfRender(t);
  }

  /** `_parse_limit` raises `ValueError` exactly for the strings outside the limit language. */
  lemma ParseLimitFailsIffUngrammatical(s: string)
    ensures ParseLimit(s).Err? <==> !Grammatical(s)
  {
    if ParseLimit(s).Ok? {
      ParseLimitSound(s);
    }
    if Grammatical(s) {
      var t :| WellFormed(t) && Render(t) == s;
      ParseLimitComplete(t);
    }
  }

  /** A limit written as `str(amount) + "/" + unit` is read back as that amount and unit. */
  lemma ParseCanonical(amount: nat, u: Unit)
    ensures ParseLimit(NatToString(amount) + "/" + UnitWord(u)) == Ok(RateLimitConfig(amount, UnitSeconds(u)))
  {
    var t := LimitSyntax("", NatToString(amount), "", Slash(""), u, UnitWord(u), "", "");
    assert WellFormed(t) by {
      assert AllSpace("");
      assert EqualsIgnoreCase(UnitWord(u), UnitWord(u));
    }
    assert Render(t) == NatToString(amount) + "/" + UnitWord(u);
    ParseLimitComplete(t);
    DigitsValueOfNatToString(amount);
  }

  /** `"10 per second"`, one of the limit strings of the unit tests. */
  lemma ParsePerSecond()
    ensures ParseLimit("10 per second") == Ok(RateLimitConfig(10, 1))
  {
    var t := LimitSyntax("", "10", " ", Per(None, "per", " "), Second, "second", "", "");
    assert WellFormed(t) by {
      assert AllSpace(" ");
      assert EqualsIgnoreCase("per", "per");
      assert EqualsIgnoreCase("second", "second");
    }
    assert Render(t) == "10 per second" by {
      assert RenderSeparator(t.sep) == "per ";
      assert RenderUnit(t) == "second";
      assert RenderTail(t) == "per second";
    }
    assert DigitsValue("10") == 10 by {
      assert "10"[..1] == "1" && "1"[..0] == "";
    }
    ParseLimitComplete(t);
  }
}
