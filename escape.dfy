/**
 * The page's `escapeHtml` helper: a falsy guard followed by five global
 * single-character replacements, `&` first, then `<`, `>`, `"` and `'`.
 *
 * The chain of passes is proved equal to a one-pass, per-character escaping
 * (`EscapeEach`); that equality is where the order of the passes matters,
 * because the ampersands introduced by the later passes are never re-escaped.
 * Output safety and the decode round trip are then proved of `EscapeEach`.
 */
module HtmlEscape {
  import opened Wrappers

  /** One global replacement `s.replace(/c/g, rep)`: every `c` becomes `rep`. */
  function Replace(s: string, c: char, rep: string): (r: string)
    ensures c !in rep ==> c !in r
    ensures forall x :: x in r ==> (x in s && x != c) || x in rep
    ensures forall x :: x in s && x != c ==> x in r
  {
    if s == [] then []
    else (if s[0] == c then rep else [s[0]]) + Replace(s[1..], c, rep)
  }

  /**
   * The five passes, in the order the page applies them. Each pass removes
   * its character and the later replacements do not bring it back, so no
   * raw `<`, `>`, `"` or `'` survives the chain.
   */
  function EscapePasses(s: string): (r: string)
    ensures NoMarkupChars(r)
  {
    Replace(Replace(Replace(Replace(Replace(s,
      '&', "&amp;"),
      '<', "&lt;"),
      '>', "&gt;"),
      '"', "&quot;"),
      '\'', "&#039;")
  }

  /**
   * `escapeHtml(text)`: `null`, `undefined` and the empty string are falsy and
   * give the empty string; any other string goes through the five passes.
   */
  function EscapeHtml(text: Option<string>): (r: string)
    ensures text == None || text == Some("") ==> r == ""
  {
    match text
    case None => ""
    case Some(s) => if s == "" then "" else EscapePasses(s)
  }

  /** The entity a single character stands for in the escaped text. */
  function EntityFor(ch: char): (e: string)
    ensures |e| >= 1 && (e[0] == '&' <==> IsSpecial(ch))
  {
    match ch
    case '&' => "&amp;"
    case '<' => "&lt;"
    case '>' => "&gt;"
    case '"' => "&quot;"
    case '\'' => "&#039;"
    case _ => [ch]
  }

  predicate IsSpecial(ch: char) {
    ch == '&' || ch == '<' || ch == '>' || ch == '"' || ch == '\''
  }

  /** Reference definition: escape each character on its own, in order. */
  function EscapeEach(s: string): string {
    if s == [] then [] else EntityFor(s[0]) + EscapeEach(s[1..])
  }

  /** The inverse: read the five entities back, copy every other character. */
  function Decode(s: string): string
    decreases |s|
  {
    if s == [] then []
    else if "&amp;" <= s then ['&'] + Decode(s[5..])
    else if "&lt;" <= s then ['<'] + Decode(s[4..])
    else if "&gt;" <= s then ['>'] + Decode(s[4..])
    else if "&quot;" <= s then ['"'] + Decode(s[6..])
    else if "&#039;" <= s then ['\''] + Decode(s[6..])
    else [s[0]] + Decode(s[1..])
  }

  /** The text `e` occurs in `r` starting at index `k`. */
  predicate OccursAt(r: string, k: nat, e: string) {
    k + |e| <= |r| && r[k..k + |e|] == e
  }

  /** One of the five entities starts at index `k` of `r`. */
  predicate EntityAt(r: string, k: nat) {
    OccursAt(r, k, "&amp;") || OccursAt(r, k, "&lt;") || OccursAt(r, k, "&gt;")
    || OccursAt(r, k, "&quot;") || OccursAt(r, k, "&#039;")
  }

  /** No character that could open a tag or close an attribute value. */
  predicate NoMarkupChars(r: string) {
    '<' !in r && '>' !in r && '"' !in r && '\'' !in r
  }

  /** Every ampersand begins one of the five entities. */
  predicate AmpersandsAreEntities(r: string) {
    forall k :: 0 <= k < |r| && r[k] == '&' ==> EntityAt(r, k)
  }

  // ---------------------------------------------------------------------
  // Facts about a single pass

  lemma {:induction false} ReplaceAppend(a: string, b: string, c: char, rep: string)
    ensures Replace(a + b, c, rep) == Replace(a, c, rep) + Replace(b, c, rep)
  {
    if a == [] {
      assert a + b == b;
    } else {
      assert (a + b)[0] == a[0];
      assert (a + b)[1..] == a[1..] + b;
      ReplaceAppend(a[1..], b, c, rep);
    }
  }

  lemma {:induction false} ReplaceAbsent(s: string, c: char, rep: string)
    requires c !in s
    ensures Replace(s, c, rep) == s
  {
    if s != [] {
      assert s[0] in s;
      assert forall x :: x in s[1..] ==> x in s;
      ReplaceAbsent(s[1..], c, rep);
    }
  }

  // ---------------------------------------------------------------------
  // The chain of passes is the per-character escaping

  lemma PassesAppend(a: string, b: string)
    ensures EscapePasses(a + b) == EscapePasses(a) + EscapePasses(b)
  {
    var a1, b1 := Replace(a, '&', "&amp;"), Replace(b, '&', "&amp;");
    ReplaceAppend(a, b, '&', "&amp;");
    var a2, b2 := Replace(a1, '<', "&lt;"), Replace(b1, '<', "&lt;");
    ReplaceAppend(a1, b1, '<', "&lt;");
    var a3, b3 := Replace(a2, '>', "&gt;"), Replace(b2, '>', "&gt;");
    ReplaceAppend(a2, b2, '>', "&gt;");
    var a4, b4 := Replace(a3, '"', "&quot;"), Replace(b3, '"', "&quot;");
    ReplaceAppend(a3, b3, '"', "&quot;");
    ReplaceAppend(a4, b4, '\'', "&#039;");
  }

  lemma ReplaceOne(x: char, c: char, rep: string)
    ensures Replace([x], c, rep) == if x == c then rep else [x]
  {
    assert [x][1..] == [];
  }

  /** A character hit by one pass is never touched again by the later ones. */
  lemma PassesSingle(ch: char)
    ensures EscapePasses([ch]) == EntityFor(ch)
  {
    match ch
    case '&' =>
      ReplaceOne('&', '&', "&amp;");
      AfterFirstPass("&amp;");
    case '<' =>
      ReplaceOne('<', '&', "&amp;");
      ReplaceOne('<', '<', "&lt;");
      AfterSecondPass("&lt;");
    case '>' =>
      ReplaceOne('>', '&', "&amp;");
      ReplaceOne('>', '<', "&lt;");
      ReplaceOne('>', '>', "&gt;");
      AfterThirdPass("&gt;");
    case '"' =>
      ReplaceOne('"', '&', "&amp;");
      ReplaceOne('"', '<', "&lt;");
      ReplaceOne('"', '>', "&gt;");
      ReplaceOne('"', '"', "&quot;");
      ReplaceAbsent("&quot;", '\'', "&#039;");
    case '\'' =>
      ReplaceOne('\'', '&', "&amp;");
      ReplaceOne('\'', '<', "&lt;");
      ReplaceOne('\'', '>', "&gt;");
      ReplaceOne('\'', '"', "&quot;");
      ReplaceOne('\'', '\'', "&#039;");
    case _ =>
      ReplaceOne(ch, '&', "&amp;");
      ReplaceOne(ch, '<', "&lt;");
      ReplaceOne(ch, '>', "&gt;");
      ReplaceOne(ch, '"', "&quot;");
      ReplaceOne(ch, '\'', "&#039;");
  }

  lemma AfterFirstPass(e: string)
    requires '<' !in e && '>' !in e && '"' !in e && '\'' !in e
    ensures Replace(Replace(Replace(Replace(e, '<', "&lt;"), '>', "&gt;"), '"', "&quot;"), '\'', "&#039;") == e
  {
    ReplaceAbsent(e, '<', "&lt;");
    AfterSecondPass(e);
  }

  lemma AfterSecondPass(e: string)
    requires '>' !in e && '"' !in e && '\'' !in e
    ensures Replace(Replace(Replace(e, '>', "&gt;"), '"', "&quot;"), '\'', "&#039;") == e
  {
    ReplaceAbsent(e, '>', "&gt;");
    AfterThirdPass(e);
  }

  lemma AfterThirdPass(e: string)
    requires '"' !in e && '\'' !in e
    ensures Replace(Replace(e, '"', "&quot;"), '\'', "&#039;") == e
  {
    ReplaceAbsent(e, '"', "&quot;");
    ReplaceAbsent(e, '\'', "&#039;");
  }

  lemma {:induction false} PassesAreEscapeEach(s: string)
    ensures EscapePasses(s) == EscapeEach(s)
  {
    if s != [] {
      assert s == [s[0]] + s[1..];
      PassesAppend([s[0]], s[1..]);
      PassesSingle(s[0]);
      PassesAreEscapeEach(s[1..]);
    }
  }

  // ---------------------------------------------------------------------
  // Properties of the per-character escaping

  lemma {:induction false} EscapeEachNoMarkup(s: string)
    ensures NoMarkupChars(EscapeEach(s))
  {
    if s != [] {
      EscapeEachNoMarkup(s[1..]);
    }
  }

  lemma OccursAtShift(e: string, t: string, j: nat, x: string)
    requires OccursAt(t, j, x)
    ensures OccursAt(e + t, |e| + j, x)
  {
    assert (e + t)[|e| + j..|e| + j + |x|] == t[j..j + |x|];
  }

  lemma EntityAmpersandFirst(ch: char, k: nat)
    requires k < |EntityFor(ch)| && EntityFor(ch)[k] == '&'
    ensures k == 0 && IsSpecial(ch)
  {
  }

  lemma {:induction false} EscapeEachAmpersands(s: string)
    ensures AmpersandsAreEntities(EscapeEach(s))
  {
    if s != [] {
      var e, t := EntityFor(s[0]), EscapeEach(s[1..]);
      var r := e + t;
      assert r == EscapeEach(s);
      EscapeEachAmpersands(s[1..]);
      forall k | 0 <= k < |r| && r[k] == '&'
        ensures EntityAt(r, k)
      {
        if k < |e| {
          EntityAmpersandFirst(s[0], k);
          assert r[0..|e|] == e;
          assert OccursAt(r, 0, e);
        } else {
          var j := k - |e|;
          assert t[j] == '&';
          if OccursAt(t, j, "&amp;") { OccursAtShift(e, t, j, "&amp;"); }
          else if OccursAt(t, j, "&lt;") { OccursAtShift(e, t, j, "&lt;"); }
          else if OccursAt(t, j, "&gt;") { OccursAtShift(e, t, j, "&gt;"); }
          else if OccursAt(t, j, "&quot;") { OccursAtShift(e, t, j, "&quot;"); }
          else { OccursAtShift(e, t, j, "&#039;"); }
        }
      }
    }
  }

  /** Decoding reads exactly one entity, or one plain character, back. */
  lemma DecodeEntity(ch: char, rest: string)
    ensures Decode(EntityFor(ch) + rest) == [ch] + Decode(rest)
  {
    var e := EntityFor(ch);
    var r := e + rest;
    assert r[..|e|] == e && r[|e|..] == rest;
    assert r[0] == e[0];
    if IsSpecial(ch) {
      assert r[1] == e[1];
      if ch != '&' {
        assert !("&amp;" <= r) by { assert e[1] != 'a'; }
      }
      if ch == '"' || ch == '\'' {
        assert !("&lt;" <= r) && !("&gt;" <= r) by { assert e[1] != 'l' && e[1] != 'g'; }
      }
      if ch == '\'' {
        assert !("&quot;" <= r) by { assert e[1] != 'q'; }
      }
      if ch == '>' {
        assert !("&lt;" <= r) by { assert e[1] != 'l'; }
      }
    }
  }

  lemma {:induction false} DecodeEscapeEach(s: string)
    ensures Decode(EscapeEach(s)) == s
  {
    if s != [] {
      DecodeEntity(s[0], EscapeEach(s[1..]));
      DecodeEscapeEach(s[1..]);
      assert s == [s[0]] + s[1..];
    }
  }

  // ---------------------------------------------------------------------
  // What escapeHtml promises

  /**
   * Because `&` is replaced first, the five passes act as one pass over the
   * characters: each special character becomes its entity, every other
   * character is copied, and the order is kept.
   */
  lemma EscapeHtmlIsPerCharacter(s: string)
    ensures EscapeHtml(Some(s)) == EscapeEach(s)
  {
    if s != "" {
      PassesAreEscapeEach(s);
    }
  }

  /** The output holds no raw `<`, `>`, `"` or `'`, and every `&` opens an entity. */
  lemma EscapeHtmlSafe(text: Option<string>)
    ensures NoMarkupChars(EscapeHtml(text))
    ensures AmpersandsAreEntities(EscapeHtml(text))
  {
    if text.Some? {
      EscapeHtmlIsPerCharacter(text.value);
      EscapeEachNoMarkup(text.value);
      EscapeEachAmpersands(text.value);
    }
  }

  /** Decoding the five entities gives the input back. */
  lemma EscapeHtmlRoundTrip(s: string)
    ensures Decode(EscapeHtml(Some(s))) == s
  {
    EscapeHtmlIsPerCharacter(s);
    DecodeEscapeEach(s);
  }

  /** Different strings are escaped differently. */
  lemma EscapeHtmlInjective(a: string, b: string)
    requires EscapeHtml(Some(a)) == EscapeHtml(Some(b))
    ensures a == b
  {
    EscapeHtmlRoundTrip(a);
    EscapeHtmlRoundTrip(b);
  }

  /** Text without any of the five special characters comes out unchanged. */
  lemma EscapeHtmlPlainText(s: string)
    requires forall k :: 0 <= k < |s| ==> !IsSpecial(s[k])
    ensures EscapeHtml(Some(s)) == s
  {
    EscapeHtmlIsPerCharacter(s);
    PlainEscapeEach(s);
  }

  lemma {:induction false} PlainEscapeEach(s: string)
    requires forall k :: 0 <= k < |s| ==> !IsSpecial(s[k])
    ensures EscapeEach(s) == s
  {
    if s != [] {
      PlainEscapeEach(s[1..]);
      assert s == [s[0]] + s[1..];
    }
  }

  /**
   * Why the `&` pass must come first: run after the `<` pass, it would turn
   * the entity for `<` into the text `&amp;lt;`.
   */
  lemma AmpersandPassLastWouldReescape()
    ensures Replace(Replace("<", '<', "&lt;"), '&', "&amp;") == "&amp;lt;"
    ensures EscapeHtml(Some("<")) == "&lt;"
  {
    ReplaceOne('<', '<', "&lt;");
    assert "&lt;" == "&" + "lt;";
    ReplaceAppend("&", "lt;", '&', "&amp;");
    ReplaceOne('&', '&', "&amp;");
    ReplaceAbsent("lt;", '&', "&amp;");
    assert "&amp;" + "lt;" == "&amp;lt;";
    PassesSingle('<');
  }
}
