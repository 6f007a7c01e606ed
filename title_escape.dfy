/**
 The attribute-safe product title: double and single quotes are replaced by the
 character references `&quot;` and `&#39;` before the title is placed inside
 the quoted HTML attributes of a product card.
 */
module TitleEscape {

  /** `s.replace(/c/g, rep)`: every occurrence of `c`, left to right, becomes `rep`. */
  function ReplaceAll(s: string, c: char, rep: string): string
  {
    if s == [] then [] else (if s[0] == c then rep else [s[0]]) + ReplaceAll(s[1..], c, rep)
  }

  /** The title as written into the product card: quotes first, then apostrophes. */
  function EscapeTitle(title: string): string
  {
    ReplaceAll(ReplaceAll(title, '"', "&quot;"), '\'', "&#39;")
  }

  /** Reference definition: each character is escaped on its own. */
  function EscapeChar(c: char): string
  {
    if c == '"' then "&quot;" else if c == '\'' then "&#39;" else [c]
  }

  function EscapeEach(s: string): string
  {
    if s == [] then [] else EscapeChar(s[0]) + EscapeEach(s[1..])
  }

  // ---------------------------------------------------------------------
  // ReplaceAll
  // ---------------------------------------------------------------------

  lemma {:induction false} ReplaceAllAppend(a: string, b: string, c: char, rep: string)
    ensures ReplaceAll(a + b, c, rep) == ReplaceAll(a, c, rep) + ReplaceAll(b, c, rep)
  {
    if a == [] {
      assert a + b == b;
    } else {
      assert (a + b)[0] == a[0] && (a + b)[1..] == a[1..] + b;
      ReplaceAllAppend(a[1..], b, c, rep);
    }
  }

  /** A string without `c` is left as it is. */
  lemma {:induction false} ReplaceAllAbsent(s: string, c: char, rep: string)
    requires c !in s
    ensures ReplaceAll(s, c, rep) == s
  {
    if s != [] {
      assert s[1..] + [] == s[1..];
      assert c !in s[1..] by {
        forall k | 0 <= k < |s[1..]| ensures s[1..][k] != c { assert s[1..][k] == s[k + 1]; }
      }
      ReplaceAllAbsent(s[1..], c, rep);
      assert s == [s[0]] + s[1..];
    }
  }

  /** After the replacement no `c` is left, provided `rep` holds none. */
  lemma {:induction false} ReplaceAllRemoves(s: string, c: char, rep: string, d: char)
    requires d !in rep && (d in s ==> d == c)
    ensures d !in ReplaceAll(s, c, rep)
  {
    if s != [] {
      assert d in s[1..] ==> d in s;
      ReplaceAllRemoves(s[1..], c, rep, d);
    }
  }

  // ---------------------------------------------------------------------
  // EscapeTitle
  // ---------------------------------------------------------------------

  lemma ReplaceAllSingle(d: char, c: char, rep: string)
    ensures ReplaceAll([d], c, rep) == if d == c then rep else [d]
  {
    assert [d][0] == d && [d][1..] == [];
    assert ReplaceAll([], c, rep) == [];
  }

  /** A one-character title is escaped as that character alone. */
  lemma EscapeTitleSingle(c: char)
    ensures EscapeTitle([c]) == EscapeChar(c)
  {
    ReplaceAllSingle(c, '"', "&quot;");
    if c == '"' {
      ReplaceAllAbsent("&quot;", '\'', "&#39;");
    } else {
      ReplaceAllSingle(c, '\'', "&#39;");
    }
  }

  /** The two chained replacements escape character by character. */
  lemma {:induction false} EscapeTitleCharwise(s: string)
    ensures EscapeTitle(s) == EscapeEach(s)
  {
    if s != [] {
      assert s == [s[0]] + s[1..];
      EscapeTitleAppend([s[0]], s[1..]);
      EscapeTitleSingle(s[0]);
      EscapeTitleCharwise(s[1..]);
    }
  }

  /** The escaped title holds no double quote and no apostrophe. */
  lemma EscapeTitleHasNoQuotes(s: string)
    ensures '"' !in EscapeTitle(s) && '\'' !in EscapeTitle(s)
  {
    var once := ReplaceAll(s, '"', "&quot;");
    ReplaceAllRemoves(s, '"', "&quot;", '"');
    ReplaceAllRemoves(once, '\'', "&#39;", '"');
    ReplaceAllRemoves(once, '\'', "&#39;", '\'');
  }

  /** A title without quotes is returned unchanged. */
  lemma EscapeTitleUnchanged(s: string)
    requires '"' !in s && '\'' !in s
    ensures EscapeTitle(s) == s
  {
    ReplaceAllAbsent(s, '"', "&quot;");
    ReplaceAllAbsent(s, '\'', "&#39;");
  }

  /** Escaping works piecewise, so every other character keeps its place. */
  lemma EscapeTitleAppend(a: string, b: string)
    ensures EscapeTitle(a + b) == EscapeTitle(a) + EscapeTitle(b)
  {
    ReplaceAllAppend(a, b, '"', "&quot;");
    ReplaceAllAppend(ReplaceAll(a, '"', "&quot;"), ReplaceAll(b, '"', "&quot;"), '\'', "&#39;");
  }

  // ---------------------------------------------------------------------
  // Reading the title back from the attribute
  // ---------------------------------------------------------------------

  /** The browser's decoding of character references in an attribute value, done
      when the card's markup is parsed (`dataset.title` then reads the decoded
      text), restricted to the three references involved here. */
  function DecodeAttribute(s: string): string
    decreases |s|
  {
    if |s| >= 6 && s[..6] == "&quot;" then "\"" + DecodeAttribute(s[6..])
    else if |s| >= 5 && s[..5] == "&#39;" then "'" + DecodeAttribute(s[5..])
    else if |s| >= 5 && s[..5] == "&amp;" then "&" + DecodeAttribute(s[5..])
    else if s == [] then []
    else [s[0]] + DecodeAttribute(s[1..])
  }

  /** Decoding a string that starts with an escaped character yields that character. */
  lemma DecodeFront(c: char, escaped: string, rest: string)
    requires escaped == (if c == '"' then "&quot;" else if c == '\'' then "&#39;"
                         else if c == '&' then "&amp;" else [c])
    ensures DecodeAttribute(escaped + rest) == [c] + DecodeAttribute(rest)
  {
    var s := escaped + rest;
    if c == '"' {
      assert s[..6] == "&quot;" && s[6..] == rest;
    } else if c == '\'' {
      assert s[..5] == "&#39;" && s[5..] == rest;
      assert |s| >= 6 ==> s[..6] != "&quot;" by {
        if |s| >= 6 { assert s[..6][1] == '#'; }
      }
    } else if c == '&' {
      assert s[..5] == "&amp;" && s[5..] == rest;
      assert |s| >= 6 ==> s[..6] != "&quot;" by {
        if |s| >= 6 { assert s[..6][1] == 'a'; }
      }
      assert s[..5] != "&#39;" by { assert s[..5][1] == 'a'; }
    } else {
      assert s[0] == c && s[1..] == rest;
      assert |s| >= 6 ==> s[..6] != "&quot;" by {
        if |s| >= 6 { assert s[..6][0] == c; }
      }
      assert |s| >= 5 ==> s[..5] != "&#39;" && s[..5] != "&amp;" by {
        if |s| >= 5 { assert s[..5][0] == c; }
      }
    }
  }

  /** A title without `&` comes back unchanged through `DecodeAttribute`. */
  lemma {:induction false} EscapeTitleRoundTrip(s: string)
    requires '&' !in s
    ensures DecodeAttribute(EscapeTitle(s)) == s
  {
    EscapeTitleCharwise(s);
    EscapeEachRoundTrip(s);
  }

  lemma {:induction false} EscapeEachRoundTrip(s: string)
    requires '&' !in s
    ensures DecodeAttribute(EscapeEach(s)) == s
  {
    if s != [] {
      assert '&' !in s[1..] by { assert forall k :: 0 <= k < |s[1..]| ==> s[1..][k] == s[k + 1]; }
      EscapeEachRoundTrip(s[1..]);
      DecodeFront(s[0], EscapeChar(s[0]), EscapeEach(s[1..]));
      assert s == [s[0]] + s[1..];
    }
  }

  /** As written, a title containing the text `&quot;` does not read back as itself:
      the product title saved in the cart differs from the catalog's. */
  lemma EscapeTitleAltersReferenceText()
    ensures EscapeTitle("&quot;") == "&quot;"
    ensures DecodeAttribute(EscapeTitle("&quot;")) == "\""
  {
    EscapeTitleUnchanged("&quot;");
    DecodeFront('"', "&quot;", []);
    assert "&quot;" + [] == "&quot;";
  }

  // ---------------------------------------------------------------------
  // Escaping that also covers `&`
  // ---------------------------------------------------------------------

  /** Escapes `&` first, then the two quotes. */
  function EscapeAttribute(title: string): string
  {
    EscapeTitle(ReplaceAll(title, '&', "&amp;"))
  }

  function EscapeAttributeChar(c: char): string
  {
    if c == '&' then "&amp;" else EscapeChar(c)
  }

  function EscapeAttributeEach(s: string): string
  {
    if s == [] then [] else EscapeAttributeChar(s[0]) + EscapeAttributeEach(s[1..])
  }

  lemma {:induction false} EscapeAttributeCharwise(s: string)
    ensures EscapeAttribute(s) == EscapeAttributeEach(s)
  {
    if s != [] {
      var c := s[0];
      assert s == [c] + s[1..];
      ReplaceAllAppend([c], s[1..], '&', "&amp;");
      ReplaceAllSingle(c, '&', "&amp;");
      var once := ReplaceAll([c], '&', "&amp;");
      EscapeTitleAppend(once, ReplaceAll(s[1..], '&', "&amp;"));
      if c == '&' {
        EscapeTitleUnchanged("&amp;");
      } else {
        EscapeTitleSingle(c);
      }
      EscapeAttributeCharwise(s[1..]);
    }
  }

  /** With `&` escaped first, every title comes back unchanged through `DecodeAttribute`. */
  lemma EscapeAttributeRoundTrip(s: string)
    ensures DecodeAttribute(EscapeAttribute(s)) == s
  {
    EscapeAttributeCharwise(s);
    EscapeAttributeEachRoundTrip(s);
  }

  lemma {:induction false} EscapeAttributeEachRoundTrip(s: string)
    ensures DecodeAttribute(EscapeAttributeEach(s)) == s
  {
    if s != [] {
      EscapeAttributeEachRoundTrip(s[1..]);
      DecodeFront(s[0], EscapeAttributeChar(s[0]), EscapeAttributeEach(s[1..]));
      assert s == [s[0]] + s[1..];
    }
  }

  /** The corrected escaping still leaves no quote in the attribute. */
  lemma EscapeAttributeHasNoQuotes(s: string)
    ensures '"' !in EscapeAttribute(s) && '\'' !in EscapeAttribute(s)
  {
    EscapeTitleHasNoQuotes(ReplaceAll(s, '&', "&amp;"));
  }
}
