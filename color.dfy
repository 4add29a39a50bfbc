/** Theme colours for the board viewer: reading the theme's CSS properties with
  * fallbacks, resolving a highlight colour token (a CSS variable, a colour
  * literal or a bare name), and fading a colour's saturation. The browser's
  * CSS lookup and colour parser are parameters: `cssVar` gives a property's
  * raw value and `parse` the colour's hue, saturation, lightness and alpha. */
module Color {
  import opened Wrappers
  import Text
  import JsText

  /** A parsed colour: hue in whole degrees, saturation and lightness in
    * `[0, 1]`, and alpha in hundredths (the parser keeps two decimals). */
  datatype Hsla = Hsla(h: int, s: real, l: real, alpha: nat)

  /** `Math.round`: halves round up. */
  function JsRound(x: real): int
  {
    (x + 0.5).Floor
  }

  /** How JavaScript prints an alpha below 1 kept to two decimals:
    * `0`, `0.5`, `0.05`, `0.45`. */
  function AlphaText(k: nat): string
    requires k < 100
  {
    if k == 0 then "0"
    else if k % 10 == 0 then "0." + [Text.DigitChar(k / 10)]
    else "0." + [Text.DigitChar(k / 10), Text.DigitChar(k % 10)]
  }

  /** `_hslToString`: `hsla(h, s%, l%, a)` when alpha is below 1, otherwise
    * `hsl(h, s%, l%)`; saturation and lightness become rounded percentages. */
  function HslToString(h: int, s: real, l: real, alpha: nat): string
  {
    var hue := Text.IntToString(h);
    var saturation := Text.IntToString(JsRound(s * 100.0));
    var lightness := Text.IntToString(JsRound(l * 100.0));
    (Head(alpha) + hue) + "," + ((" " + saturation + "%") + "," + Tail(lightness, alpha))
  }

  /** `hsla(` before the hue when alpha is below 1, otherwise `hsl(`. */
  function Head(alpha: nat): string
  {
    if alpha < 100 then "hsla(" else "hsl("
  }

  /** The text after the second comma: ` L%, A)` or ` L%)`. */
  function Tail(lightness: string, alpha: nat): string
  {
    if alpha < 100 then " " + lightness + "%" + "," + (" " + AlphaText(alpha) + ")") else " " + lightness + "%)"
  }

  /** The factor saturation is multiplied by: `1 - clamp(fade, 0, 1)`. */
  function FadeFactor(fade: real): real
  {
    1.0 - (if fade < 0.0 then 0.0 else if fade > 1.0 then 1.0 else fade)
  }

  /** `applyFadeToColorString`: `None` (JavaScript's `null`) when the colour
    * does not parse, otherwise the colour with its saturation scaled. */
  function ApplyFadeToColorString(color: string, fade: real, parse: string -> Option<Hsla>): Option<string>
  {
    match parse(color)
    case None => None
    case Some(c) => Some(HslToString(c.h, c.s * FadeFactor(fade), c.l, c.alpha))
  }

  /** The fade factor lies in `[0, 1]`: 1 for a fade of 0 or less, 0 from 1
    * on, and exactly `1 - fade` in between. */
  lemma FadeFactorBounds(fade: real)
    ensures 0.0 <= FadeFactor(fade) <= 1.0
    ensures fade <= 0.0 ==> FadeFactor(fade) == 1.0
    ensures fade >= 1.0 ==> FadeFactor(fade) == 0.0
    ensures 0.0 <= fade <= 1.0 ==> FadeFactor(fade) == 1.0 - fade
  {
  }

  /** The fade fails exactly when the colour does not parse, and otherwise
    * keeps hue, lightness and alpha and scales the saturation. */
  lemma FadeKeepsHueLightnessAlpha(color: string, fade: real, parse: string -> Option<Hsla>)
    ensures ApplyFadeToColorString(color, fade, parse).Some? <==> parse(color).Some?
    ensures parse(color).Some? ==>
      ApplyFadeToColorString(color, fade, parse)
      == Some(HslToString(parse(color).value.h, parse(color).value.s * FadeFactor(fade),
                          parse(color).value.l, parse(color).value.alpha))
  {
  }

  /** A printed integer holds no comma. */
  lemma IntToStringNoComma(n: int)
    ensures ',' !in Text.IntToString(n)
  {
    var s := Text.IntToString(n);
    if n < 0 {
      var d := Text.NatToString(-n);
      assert s == "-" + d;
      forall i | 0 <= i < |s| ensures s[i] != ',' {
        if i > 0 { assert s[i] == d[i - 1]; }
      }
    }
  }

  lemma AlphaTextInjective(a: nat, b: nat)
    requires a < 100 && b < 100 && AlphaText(a) == AlphaText(b)
    ensures a == b
  {
    var s := AlphaText(a);
    if |s| == 3 {
      assert Text.DigitValue(s[2]) == a / 10 == b / 10;
    } else if |s| == 4 {
      assert Text.DigitValue(s[2]) == a / 10 == b / 10;
      assert Text.DigitValue(s[3]) == a % 10 == b % 10;
    }
  }

  /** Two equal texts that each start with a comma-free piece followed by a
    * comma agree piece by piece. */
  lemma CutAtComma(a1: string, b1: string, a2: string, b2: string)
    requires ',' !in a1 && ',' !in a2
    requires a1 + [','] + b1 == a2 + [','] + b2
    ensures a1 == a2 && b1 == b2
  {
    var t := a1 + [','] + b1;
    assert t[|a1|] == ',';
    assert t[|a2|] == ',';
    assert a1 == t[..|a1|] == a2;
    assert b1 == t[|a1| + 1..] == b2;
  }

  /** Equal texts with the same prefix and suffix have the same middle. */
  lemma Unwrap(p: string, x: string, y: string, q: string)
    requires p + x + q == p + y + q
    ensures x == y
  {
    var t := p + x + q;
    assert x == t[|p|..|t| - |q|];
  }

  lemma HslPieces(h: int, s: real, l: real, alpha: nat)
    ensures ',' !in Head(alpha) + Text.IntToString(h)
    ensures ',' !in " " + Text.IntToString(JsRound(s * 100.0)) + "%"
    ensures ',' !in Text.IntToString(JsRound(l * 100.0))
    ensures HslToString(h, s, l, alpha)[3] == (if alpha < 100 then 'a' else '(')
  {
    IntToStringNoComma(h);
    IntToStringNoComma(JsRound(s * 100.0));
    IntToStringNoComma(JsRound(l * 100.0));
  }

  /** The printed text determines the hue, the rounded percentages and the
    * alpha: two colours print alike only when these agree. */
  lemma HslToStringInjective(h1: int, s1: real, l1: real, a1: nat, h2: int, s2: real, l2: real, a2: nat)
    requires HslToString(h1, s1, l1, a1) == HslToString(h2, s2, l2, a2)
    ensures h1 == h2 && JsRound(s1 * 100.0) == JsRound(s2 * 100.0) && JsRound(l1 * 100.0) == JsRound(l2 * 100.0)
    ensures (a1 < 100) == (a2 < 100) && (a1 < 100 ==> a1 == a2)
  {
    HslPieces(h1, s1, l1, a1);
    HslPieces(h2, s2, l2, a2);
    var H1, S1, L1 := Text.IntToString(h1), Text.IntToString(JsRound(s1 * 100.0)), Text.IntToString(JsRound(l1 * 100.0));
    var H2, S2, L2 := Text.IntToString(h2), Text.IntToString(JsRound(s2 * 100.0)), Text.IntToString(JsRound(l2 * 100.0));
    var p := Head(a1);
    assert Head(a2) == p;
    CutAtComma(p + H1, (" " + S1 + "%") + "," + Tail(L1, a1), p + H2, (" " + S2 + "%") + "," + Tail(L2, a2));
    Unwrap(p, H1, H2, "");
    CutAtComma(" " + S1 + "%", Tail(L1, a1), " " + S2 + "%", Tail(L2, a2));
    Unwrap(" ", S1, S2, "%");
    if a1 < 100 {
      TailsAgree(L1, a1, L2, a2);
    } else {
      Unwrap(" ", L1, L2, "%)");
    }
    Text.IntToStringInjective(h1, h2);
    Text.IntToStringInjective(JsRound(s1 * 100.0), JsRound(s2 * 100.0));
    Text.IntToStringInjective(JsRound(l1 * 100.0), JsRound(l2 * 100.0));
  }

  lemma TailsAgree(L1: string, a1: nat, L2: string, a2: nat)
    requires a1 < 100 && a2 < 100 && ',' !in L1 && ',' !in L2
    requires Tail(L1, a1) == Tail(L2, a2)
    ensures L1 == L2 && a1 == a2
  {
    assert ',' !in " " + L1 + "%" && ',' !in " " + L2 + "%";
    CutAtComma(" " + L1 + "%", " " + AlphaText(a1) + ")", " " + L2 + "%", " " + AlphaText(a2) + ")");
    Unwrap(" ", L1, L2, "%");
    Unwrap(" ", AlphaText(a1), AlphaText(a2), ")");
    AlphaTextInjective(a1, a2);
  }

  // ---------------------------------------------------------------------------
  // Token resolution

  predicate IsNameChar(ch: char)
  {
    'a' <= ch <= 'z' || 'A' <= ch <= 'Z' || '0' <= ch <= '9' || ch == '_' || ch == '-'
  }

  /** A CSS custom property name as the pattern `--[a-zA-Z0-9_-]+` admits. */
  predicate IsVarName(m: string)
  {
    |m| >= 3 && m[..2] == "--" && forall i :: 2 <= i < |m| ==> IsNameChar(m[i])
  }

  /** The variable a trimmed token names: the token itself when it starts with
    * `--`, or `NAME` when the whole token is `var(NAME)`. */
  function VarName(t: string): Option<string>
  {
    if JsText.StartsWith(t, "--") then Some(t)
    else if |t| >= 8 && t[..4] == "var(" && t[|t| - 1] == ')' && IsVarName(t[4..|t| - 1]) then Some(t[4..|t| - 1])
    else None
  }

  /** Looks like a colour literal: `#…`, `rgb…`, `hsl…`, or anything with `(`. */
  predicate ColorLike(t: string)
  {
    JsText.StartsWith(t, "#") || JsText.StartsWith(t, "rgb") || JsText.StartsWith(t, "hsl") || '(' in t
  }

  /** The variables whose values are never faded. */
  predicate Exempt(name: string)
  {
    name == "--highlight-check" || name == "--highlight-phantom-board"
  }

  predicate Fading(activeFade: Option<real>)
  {
    activeFade.Some? && activeFade.value > 0.0
  }

  /** `applyFadeToColorString(v, fade) || v`. */
  function FadeOr(v: string, fade: real, parse: string -> Option<Hsla>): string
  {
    var r := ApplyFadeToColorString(v, fade, parse);
    if r.Some? && r.value != "" then r.value else v
  }

  /** `resolveColor`: `None` (JavaScript's `null`) for a missing or empty
    * token; a variable is looked up and its value faded unless empty or
    * exempt; a colour literal is faded; anything else is returned trimmed. */
  function ResolveColor(token: Option<string>, activeFade: Option<real>,
                        cssVar: string -> string, parse: string -> Option<Hsla>): Option<string>
  {
    if token.None? || token.value == "" then None
    else Some(ResolveTrimmed(JsText.Trim(token.value), activeFade, cssVar, parse))
  }

  /** What a present token resolves to once trimmed. */
  function ResolveTrimmed(t: string, activeFade: Option<real>,
                          cssVar: string -> string, parse: string -> Option<Hsla>): string
  {
    var v := VarName(t);
    if v.Some? then ResolveVar(v.value, activeFade, cssVar, parse)
    else if ColorLike(t) && Fading(activeFade) then FadeOr(t, activeFade.value, parse)
    else t
  }

  /** A variable's trimmed value, faded unless it is empty or exempt. */
  function ResolveVar(name: string, activeFade: Option<real>,
                      cssVar: string -> string, parse: string -> Option<Hsla>): string
  {
    var val := JsText.Trim(cssVar(name));
    if val == "" || Exempt(name) || !Fading(activeFade) then val
    else FadeOr(val, activeFade.value, parse)
  }

  /** A token that is its own trim resolves as itself. */
  lemma ResolvePresent(t: string, activeFade: Option<real>,
                       cssVar: string -> string, parse: string -> Option<Hsla>)
    requires t != "" && JsText.Trim(t) == t
    ensures ResolveColor(Some(t), activeFade, cssVar, parse) == Some(ResolveTrimmed(t, activeFade, cssVar, parse))
  {
  }

  /** The result is `null` exactly for a missing or empty token. */
  lemma ResolveColorNull(token: Option<string>, activeFade: Option<real>,
                         cssVar: string -> string, parse: string -> Option<Hsla>)
    ensures ResolveColor(token, activeFade, cssVar, parse).None? <==> token.None? || token.value == ""
  {
  }

  /** Without an active fade nothing is faded: a variable gives its trimmed
    * value and any other token itself, trimmed. */
  lemma ResolveColorUnfaded(token: string, activeFade: Option<real>,
                            cssVar: string -> string, parse: string -> Option<Hsla>)
    requires token != "" && !Fading(activeFade)
    ensures var t := JsText.Trim(token);
      ResolveColor(Some(token), activeFade, cssVar, parse)
      == Some(if VarName(t).Some? then JsText.Trim(cssVar(VarName(t).value)) else t)
  {
  }

  /** The check and phantom-board highlight variables keep their value under
    * any fade. */
  lemma ResolveColorExempt(name: string, activeFade: Option<real>,
                           cssVar: string -> string, parse: string -> Option<Hsla>)
    requires Exempt(name)
    ensures ResolveColor(Some(name), activeFade, cssVar, parse) == Some(JsText.Trim(cssVar(name)))
    ensures ResolveColor(Some(VarForm(name)), activeFade, cssVar, parse) == Some(JsText.Trim(cssVar(name)))
  {
    assert IsVarName(name);
    PlainVarName(name);
    ResolvePresent(name, activeFade, cssVar, parse);
    ResolveNamed(name, name, activeFade, cssVar, parse);
    ResolveVarForms(name, activeFade, cssVar, parse);
  }

  /** The `var(NAME)` spelling of a variable. */
  function VarForm(name: string): string
  {
    "var(" + name + ")"
  }

  /** `var(--x)` and `--x` resolve alike. */
  lemma ResolveVarForms(name: string, activeFade: Option<real>,
                        cssVar: string -> string, parse: string -> Option<Hsla>)
    requires IsVarName(name)
    ensures ResolveColor(Some(VarForm(name)), activeFade, cssVar, parse)
         == ResolveColor(Some(name), activeFade, cssVar, parse)
  {
    var w := VarForm(name);
    PlainVarName(name);
    WrappedVarName(name);
    ResolvePresent(w, activeFade, cssVar, parse);
    ResolvePresent(name, activeFade, cssVar, parse);
    ResolveNamed(w, name, activeFade, cssVar, parse);
    ResolveNamed(name, name, activeFade, cssVar, parse);
  }

  /** A token naming a variable resolves as that variable. */
  lemma ResolveNamed(t: string, name: string, activeFade: Option<real>,
                     cssVar: string -> string, parse: string -> Option<Hsla>)
    requires VarName(t) == Some(name)
    ensures ResolveTrimmed(t, activeFade, cssVar, parse) == ResolveVar(name, activeFade, cssVar, parse)
  {
  }

  /** A variable name is its own trim and names itself. */
  lemma PlainVarName(name: string)
    requires IsVarName(name)
    ensures name != "" && JsText.Trim(name) == name && VarName(name) == Some(name)
  {
    assert IsNameChar(name[|name| - 1]);
    JsText.TrimIdentity(name);
  }

  /** `var(NAME)` is its own trim and names `NAME`. */
  lemma WrappedVarName(name: string)
    requires IsVarName(name)
    ensures VarForm(name) != "" && JsText.Trim(VarForm(name)) == VarForm(name)
    ensures VarName(VarForm(name)) == Some(name)
  {
    var w := VarForm(name);
    assert w[0] == 'v' && w[1] == 'a' && w[2] == 'r' && w[3] == '(' && w[|w| - 1] == ')';
    assert w[..2] != "--" by { assert w[..2][0] == 'v'; }
    assert w[..4] == "var(";
    assert w[4..|w| - 1] == name;
    JsText.TrimIdentity(w);
  }

  /** A token that names no variable and does not look like a colour comes
    * back trimmed whatever the fade. */
  lemma ResolveBareName(token: string, activeFade: Option<real>,
                        cssVar: string -> string, parse: string -> Option<Hsla>)
    requires token != ""
    requires VarName(JsText.Trim(token)).None? && !ColorLike(JsText.Trim(token))
    ensures ResolveColor(Some(token), activeFade, cssVar, parse) == Some(JsText.Trim(token))
  {
  }

  /** A fading colour literal that parses becomes its faded `hsl` text. */
  lemma ResolveLiteralFaded(token: string, fade: real,
                            cssVar: string -> string, parse: string -> Option<Hsla>)
    requires token != "" && fade > 0.0
    requires var t := JsText.Trim(token); VarName(t).None? && ColorLike(t) && parse(t).Some?
    ensures var t := JsText.Trim(token); var c := parse(t).value;
      ResolveColor(Some(token), Some(fade), cssVar, parse)
      == Some(HslToString(c.h, c.s * FadeFactor(fade), c.l, c.alpha))
  {
    var t := JsText.Trim(token);
    var c := parse(t).value;
    assert ResolveColor(Some(token), Some(fade), cssVar, parse) == Some(ResolveTrimmed(t, Some(fade), cssVar, parse));
    assert ResolveTrimmed(t, Some(fade), cssVar, parse) == FadeOr(t, fade, parse);
    assert HslToString(c.h, c.s * FadeFactor(fade), c.l, c.alpha) != "";
  }

  // ---------------------------------------------------------------------------
  // Theme colours

  /** The keys `loadColors` fills in. */
  const ThemeKeys: set<string> := {"spGridWhite", "spGridBlack", "present", "boardMarginBlack",
    "boardMarginWhite", "squareBlack", "squareWhite", "squareFuzzy", "arrowWhiteTop", "debugRed"}

  /** A property's trimmed value, or the fallback when that is empty. */
  function OrFallback(value: string, fallback: string): (r: string)
    ensures fallback != "" ==> r != ""
  {
    var v := JsText.Trim(value);
    if v == "" then fallback else v
  }

  /** The CSS property each theme key is read from. */
  function Property(key: string): string
  {
    match key
    case "spGridWhite" => "--sp-grid-white"
    case "spGridBlack" => "--sp-grid-black"
    case "present" => "--present"
    case "boardMarginBlack" => "--board-margin-black"
    case "boardMarginWhite" => "--board-margin-white"
    case "squareBlack" => "--square-black"
    case "squareWhite" => "--square-white"
    case "squareFuzzy" => "--square-fuzzy"
    case "arrowWhiteTop" => "--arrow-white-top"
    case _ => "--debug-red"
  }

  /** The colour each theme key falls back to. */
  function Fallback(key: string): (r: string)
    ensures r != ""
  {
    match key
    case "spGridWhite" => "#ffffff"
    case "spGridBlack" => "#f5f5f5"
    case "present" => "rgba(219,172,52,0.4)"
    case "boardMarginBlack" => "#555555"
    case "boardMarginWhite" => "#dfdfdf"
    case "squareBlack" => "#7f7f7f"
    case "squareWhite" => "#cccccc"
    case "squareFuzzy" => "#a6a6a6"
    case "arrowWhiteTop" => "rgba(255,255,255,0.8)"
    case _ => "red"
  }

  /** `loadColors`: every theme key with its property's trimmed value, or
    * its fallback when that is empty. */
  function LoadColors(cssVar: string -> string): map<string, string>
  {
    map key | key in ThemeKeys :: OrFallback(cssVar(Property(key)), Fallback(key))
  }

  /** The loaded colours are exactly the theme's keys, none is empty, and a
    * key whose property is unset or blank gets its fallback. */
  lemma LoadColorsEntries(cssVar: string -> string)
    ensures LoadColors(cssVar).Keys == ThemeKeys
    ensures "" !in LoadColors(cssVar).Values
    ensures forall key :: key in ThemeKeys && JsText.Trim(cssVar(Property(key))) == "" ==>
      LoadColors(cssVar)[key] == Fallback(key)
  {
  }

  /** `applyFadeToColors`: a copy of the colours in which every value that
    * parses is faded and every other value is kept. */
  method ApplyFadeToColors(colors: map<string, string>, fade: real, parse: string -> Option<Hsla>)
    returns (out: map<string, string>)
    ensures out.Keys == colors.Keys
    ensures forall k :: k in colors ==>
      out[k] == if parse(colors[k]).Some? then ApplyFadeToColorString(colors[k], fade, parse).value else colors[k]
  {
    out := colors;
    var todo := colors.Keys;
    while todo != {}
      invariant todo <= colors.Keys && out.Keys == colors.Keys
      invariant forall k :: k in colors && k !in todo ==>
        out[k] == if parse(colors[k]).Some? then ApplyFadeToColorString(colors[k], fade, parse).value else colors[k]
      invariant forall k :: k in todo ==> out[k] == colors[k]
      decreases todo
    {
      var k :| k in todo;
      var val := colors[k];
      var parsed := parse(val);
      if parsed.Some? {
        out := out[k := ApplyFadeToColorString(val, fade, parse).value];
      } else {
        out := out[k := val];
      }
      todo := todo - {k};
    }
  }
}
