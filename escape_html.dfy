/**
 * `escapeHtml` (mermaid-utils.js): every one of the five characters
 * `& < > " '` is replaced by its entity, every other character is kept.
 */
module EscapeHtml {

  /** The five characters the escape map covers. */
  predicate IsSpecial(c: char)
  {
    c == '&' || c == '<' || c == '>' || c == '"' || c == '\''
  }

  /** The replacement of one character. */
  function EscapeChar(c: char): (r: string)
    ensures IsSpecial(c) ==> |r| >= 4 && r[0] == '&' && r[|r| - 1] == ';'
    ensures !IsSpecial(c) ==> r == [c]
  {
    match c
    case '&' => "&amp;"
    case '<' => "&lt;"
    case '>' => "&gt;"
    case '"' => "&quot;"
    case '\'' => "&#39;"
    case _ => [c]
  }

  /** No character that could open a tag, close a tag or end an attribute value. */
  predicate MarkupFree(s: string)
  {
    '<' !in s && '>' !in s && '"' !in s && '\'' !in s
  }

  /** `escapeHtml(text)`: the global replacement of `/[&<>"']/g`. */
  function Escape(s: string): (r: string)
    ensures MarkupFree(r)
    ensures |r| >= |s|
    decreases |s|
  {
    if s == [] then "" else EscapeChar(s[0]) + Escape(s[1..])
  }

  /** Escaping distributes over concatenation. */
  lemma {:induction false} EscapeConcat(a: string, b: string)
    ensures Escape(a + b) == Escape(a) + Escape(b)
    decreases |a|
  {
    if a == [] {
      assert a + b == b;
    } else {
      assert (a + b)[1..] == a[1..] + b;
      EscapeConcat(a[1..], b);
    }
  }

  /** A string without any of the five characters is left as it is. */
  lemma {:induction false} EscapePlain(s: string)
    requires forall i | 0 <= i < |s| :: !IsSpecial(s[i])
    ensures Escape(s) == s
    decreases |s|
  {
    if s != [] {
      EscapePlain(s[1..]);
    }
  }

  /** Every `&` of the output starts one of the five entities. */
  lemma {:induction false} EscapeAmpersands(s: string, k: int)
    requires 0 <= k < |Escape(s)| && Escape(s)[k] == '&'
    ensures StartsEntity(Escape(s)[k..])
    decreases |s|
  {
    var e := Escape(s);
    var head := EscapeChar(s[0]);
    assert e == head + Escape(s[1..]);
    if k < |head| {
      assert IsSpecial(s[0]) && k == 0;
      assert e[k..] == head + Escape(s[1..]);
    } else {
      assert e[k..] == Escape(s[1..])[k - |head|..];
      EscapeAmpersands(s[1..], k - |head|);
    }
  }

  /**
   * The character that the entity at the start of `s` stands for, and the
   * entity's length; the length is 0 when `s` starts with none of the five.
   */
  function LeadingEntity(s: string): (r: (char, nat))
    ensures r.1 <= |s|
    ensures r.1 > 0 ==> s[0] == '&' && IsSpecial(r.0) && s[..r.1] == EscapeChar(r.0)
  {
    if |s| < 4 || s[0] != '&' then (' ', 0)
    else if |s| >= 5 && s[1] == 'a' && s[2] == 'm' && s[3] == 'p' && s[4] == ';' then ('&', 5)
    else if s[1] == 'l' && s[2] == 't' && s[3] == ';' then ('<', 4)
    else if s[1] == 'g' && s[2] == 't' && s[3] == ';' then ('>', 4)
    else if |s| >= 6 && s[1] == 'q' && s[2] == 'u' && s[3] == 'o' && s[4] == 't' && s[5] == ';' then ('"', 6)
    else if |s| >= 5 && s[1] == '#' && s[2] == '3' && s[3] == '9' && s[4] == ';' then ('\'', 5)
    else (' ', 0)
  }

  predicate StartsEntity(s: string)
  {
    LeadingEntity(s).1 > 0
  }

  /**
   * A reference decoder for the five entities, used only to state that
   * escaping loses no information; the plugin itself never decodes.
   */
  ghost function EntityDecode(s: string): string
    decreases |s|
  {
    if s == [] then ""
    else
      var (c, n) := LeadingEntity(s);
      if n > 0 then [c] + EntityDecode(s[n..]) else [s[0]] + EntityDecode(s[1..])
  }

  /** Decoding undoes the replacement of one character, whatever follows it. */
  lemma DecodeEscapeChar(c: char, rest: string)
    ensures EntityDecode(EscapeChar(c) + rest) == [c] + EntityDecode(rest)
  {
    var h := EscapeChar(c);
    var e := h + rest;
    assert e[|h|..] == rest;
    if IsSpecial(c) {
      assert e[0] == '&' && e[1] == h[1] && e[2] == h[2] && e[3] == h[3];
      assert |h| >= 5 ==> e[4] == h[4];
      assert |h| >= 6 ==> e[5] == h[5];
      assert LeadingEntity(e) == (c, |h|);
    } else {
      assert e[0] == c && e[1..] == rest;
    }
  }

  /** Decoding the escaped text gives back the original text. */
  lemma {:induction false} DecodeEscape(s: string)
    ensures EntityDecode(Escape(s)) == s
    decreases |s|
  {
    if s != [] {
      DecodeEscapeChar(s[0], Escape(s[1..]));
      DecodeEscape(s[1..]);
      assert s == [s[0]] + s[1..];
    }
  }

  /** Two different texts never escape to the same markup. */
  lemma EscapeInjective(a: string, b: string)
    requires Escape(a) == Escape(b)
    ensures a == b
  {
    DecodeEscape(a);
    DecodeEscape(b);
  }
}
