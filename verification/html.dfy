/**
 * Python's `html.escape(s, quote=True)`: `&`, `<`, `>`, `"` and `'` become
 * `&amp;`, `&lt;`, `&gt;`, `&quot;` and `&#x27;`. Replacing `&` first and the
 * others after it, as the library does, is the same as rewriting each
 * character on its own, which is how it is written here.
 */
module Html {
  import opened PyStr

  /** The characters `html.escape` rewrites. */
  predicate IsMarkup(c: char) {
    c == '&' || c == '<' || c == '>' || c == '"' || c == '\''
  }

  function EscapeChar(c: char): string {
    if c == '&' then "&amp;"
    else if c == '<' then "&lt;"
    else if c == '>' then "&gt;"
    else if c == '"' then "&quot;"
    else if c == '\'' then "&#x27;"
    else [c]
  }

  function Escape(s: string): string {
    if s == [] then [] else EscapeChar(s[0]) + Escape(s[1..])
  }

  /** Escaped text holds no raw `<`, `>`, `"` or `'`: only `&` survives, as the start of an entity. */
  lemma {:induction false} EscapeHasNoMarkup(s: string)
    ensures forall i :: 0 <= i < |Escape(s)| ==>
              Escape(s)[i] != '<' && Escape(s)[i] != '>' && Escape(s)[i] != '"' && Escape(s)[i] != '\''
  {
    if s != [] {
      EscapeHasNoMarkup(s[1..]);
      var e, t := EscapeChar(s[0]), Escape(s[1..]);
      assert Escape(s) == e + t;
      forall i | 0 <= i < |e + t|
        ensures (e + t)[i] != '<' && (e + t)[i] != '>' && (e + t)[i] != '"' && (e + t)[i] != '\''
      {
        if i >= |e| {
          assert (e + t)[i] == t[i - |e|];
        }
      }
    }
  }

  /** A string without markup characters is left as it is. */
  lemma {:induction false} EscapePlain(s: string)
    requires forall i :: 0 <= i < |s| ==> !IsMarkup(s[i])
    ensures Escape(s) == s
  {
    if s != [] {
      EscapePlain(s[1..]);
    }
  }

  /** The inverse of `Escape`: reads the five entities back, keeps everything else. */
  function Unescape(s: string): (r: string)
    ensures |r| <= |s|
    decreases |s|
  {
    if s == [] then []
    else if s[0] != '&' then [s[0]] + Unescape(s[1..])
    else if StartsWith(s, "&amp;") then "&" + Unescape(s[5..])
    else if StartsWith(s, "&lt;") then "<" + Unescape(s[4..])
    else if StartsWith(s, "&gt;") then ">" + Unescape(s[4..])
    else if StartsWith(s, "&quot;") then "\"" + Unescape(s[6..])
    else if StartsWith(s, "&#x27;") then "'" + Unescape(s[6..])
    else "&" + Unescape(s[1..])
  }

  lemma UnescapeEscapeChar(c: char, t: string)
    ensures Unescape(EscapeChar(c) + t) == [c] + Unescape(t)
  {
    var e := EscapeChar(c);
    var s := e + t;
    assert s[..|e|] == e;
    assert s[|e|..] == t;
    if c == '&' {
      assert StartsWith(s, "&amp;");
    } else if c == '<' {
      assert !StartsWith(s, "&amp;") by { assert |s| >= 5 ==> s[1] == 'l'; }
      assert StartsWith(s, "&lt;");
    } else if c == '>' {
      assert !StartsWith(s, "&amp;") by { assert |s| >= 5 ==> s[1] == 'g'; }
      assert !StartsWith(s, "&lt;") by { assert s[1] == 'g'; }
      assert StartsWith(s, "&gt;");
    } else if c == '"' {
      assert s[1] == 'q';
      assert !StartsWith(s, "&amp;") && !StartsWith(s, "&lt;") && !StartsWith(s, "&gt;");
      assert StartsWith(s, "&quot;");
    } else if c == '\'' {
      assert s[1] == '#';
      assert !StartsWith(s, "&amp;") && !StartsWith(s, "&lt;") && !StartsWith(s, "&gt;");
      assert !StartsWith(s, "&quot;");
      assert StartsWith(s, "&#x27;");
    } else {
      assert s == [c] + t;
    }
  }

  /** Escaping loses nothing: `Unescape` gives the original text back. */
  lemma {:induction false} UnescapeEscape(s: string)
    ensures Unescape(Escape(s)) == s
  {
    if s != [] {
      UnescapeEscape(s[1..]);
      UnescapeEscapeChar(s[0], Escape(s[1..]));
      assert [s[0]] + s[1..] == s;
    }
  }
}
