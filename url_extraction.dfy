/**
 * Picking the URL out of a message body: the first token of Python's
 * `body.split()` that starts with `http://` or `https://`.
 */
module UrlExtraction {
  import opened Wrappers

  /**
   * Python's `str.isspace()`, the separator set of `str.split()` with no
   * argument: the ASCII controls TAB..CR and FS..US, SPACE, NEL, NO-BREAK
   * SPACE, OGHAM SPACE MARK, EN QUAD..HAIR SPACE, LINE and PARAGRAPH
   * SEPARATOR, NARROW NO-BREAK SPACE, MEDIUM MATHEMATICAL SPACE and
   * IDEOGRAPHIC SPACE.
   */
  predicate IsSpace(c: char)
  {
    || ('\t' <= c <= '\r')
    || ('\U{1C}' <= c <= '\U{1F}')
    || c == ' '
    || c == '\U{85}'
    || c == '\U{A0}'
    || c == '\U{1680}'
    || ('\U{2000}' <= c <= '\U{200A}')
    || c == '\U{2028}'
    || c == '\U{2029}'
    || c == '\U{202F}'
    || c == '\U{205F}'
    || c == '\U{3000}'
  }

  /** What `split()` can produce: a non-empty run of non-whitespace. */
  predicate IsToken(w: string)
  {
    |w| > 0 && forall i :: 0 <= i < |w| ==> !IsSpace(w[i])
  }

  /** Length of the maximal run of non-whitespace at the start of `s`. */
  function TokenLength(s: string): (n: nat)
    ensures n <= |s|
    ensures forall i :: 0 <= i < n ==> !IsSpace(s[i])
    ensures n < |s| ==> IsSpace(s[n])
  {
    if s == [] || IsSpace(s[0]) then 0 else 1 + TokenLength(s[1..])
  }

  /** Python's `s.split()`: the maximal whitespace-free runs of `s`, in order. */
  function Split(s: string): (tokens: seq<string>)
    ensures forall k :: 0 <= k < |tokens| ==> IsToken(tokens[k])
    decreases |s|
  {
    if s == [] then []
    else if IsSpace(s[0]) then Split(s[1..])
    else
      var n := TokenLength(s);
      [s[..n]] + Split(s[n..])
  }

  /** `word.startswith(("http://", "https://"))`. */
  predicate HasUrlScheme(w: string)
  {
    "http://" <= w || "https://" <= w
  }

  /** Index of the first token with a URL scheme, as `next(...)` over the tokens finds it. */
  function FirstUrlIndex(tokens: seq<string>): (r: Option<nat>)
    ensures r.Some? ==> r.value < |tokens| && HasUrlScheme(tokens[r.value])
    ensures r.Some? ==> forall j :: 0 <= j < r.value ==> !HasUrlScheme(tokens[j])
    ensures r.None? <==> forall j :: 0 <= j < |tokens| ==> !HasUrlScheme(tokens[j])
  {
    if tokens == [] then None
    else if HasUrlScheme(tokens[0]) then Some(0)
    else
      match FirstUrlIndex(tokens[1..])
      case None => None
      case Some(i) => Some(i + 1)
  }

  /** The URL forwarded to URL processing, or None when the body has none. */
  function ExtractUrl(body: string): (url: Option<string>)
    ensures url.Some? ==> IsToken(url.value) && HasUrlScheme(url.value)
    ensures url.Some? ==>
              exists i :: 0 <= i < |Split(body)| && Split(body)[i] == url.value
                          && forall j :: 0 <= j < i ==> !HasUrlScheme(Split(body)[j])
    ensures url.None? <==> forall k :: 0 <= k < |Split(body)| ==> !HasUrlScheme(Split(body)[k])
  {
    var tokens := Split(body);
    match FirstUrlIndex(tokens)
    case None => None
    case Some(i) => Some(tokens[i])
  }

  /** All non-whitespace characters of `s`, in order. */
  function NonSpace(s: string): string
  {
    if s == [] then []
    else if IsSpace(s[0]) then NonSpace(s[1..])
    else [s[0]] + NonSpace(s[1..])
  }

  /** The tokens glued together without separators. */
  function Concat(tokens: seq<string>): string
  {
    if tokens == [] then [] else tokens[0] + Concat(tokens[1..])
  }

  /** `" ".join(tokens)`. */
  function Join(tokens: seq<string>): string
  {
    if tokens == [] then []
    else if |tokens| == 1 then tokens[0]
    else tokens[0] + " " + Join(tokens[1..])
  }

  lemma {:induction false} NonSpaceOfToken(w: string)
    requires forall i :: 0 <= i < |w| ==> !IsSpace(w[i])
    ensures NonSpace(w) == w
  {
    if w != [] {
      NonSpaceOfToken(w[1..]);
    }
  }

  lemma {:induction false} NonSpaceAppend(a: string, b: string)
    ensures NonSpace(a + b) == NonSpace(a) + NonSpace(b)
  {
    if a == [] {
      assert a + b == b;
    } else {
      assert (a + b)[1..] == a[1..] + b;
      NonSpaceAppend(a[1..], b);
    }
  }

  /** Splitting loses only whitespace: the tokens hold every other character, in order. */
  lemma {:induction false} SplitKeepsContent(s: string)
    ensures Concat(Split(s)) == NonSpace(s)
    decreases |s|
  {
    if s == [] {
    } else if IsSpace(s[0]) {
      SplitKeepsContent(s[1..]);
    } else {
      var n := TokenLength(s);
      assert s == s[..n] + s[n..];
      SplitKeepsContent(s[n..]);
      NonSpaceOfToken(s[..n]);
      NonSpaceAppend(s[..n], s[n..]);
      assert Split(s)[1..] == Split(s[n..]);
    }
  }

  lemma TokenLengthOfToken(w: string, rest: string)
    requires IsToken(w)
    requires rest == [] || IsSpace(rest[0])
    ensures TokenLength(w + rest) == |w|
  {
    var s := w + rest;
    assert forall i :: 0 <= i < |w| ==> s[i] == w[i];
    assert |s| > |w| ==> s[|w|] == rest[0];
  }

  /** A leading token followed by whitespace or the end of the string is split off whole. */
  lemma SplitLeadingToken(w: string, rest: string)
    requires IsToken(w)
    requires rest == [] || IsSpace(rest[0])
    ensures Split(w + rest) == [w] + Split(rest)
  {
    var s := w + rest;
    TokenLengthOfToken(w, rest);
    assert s[..|w|] == w;
    assert s[|w|..] == rest;
  }

  /** Splitting undoes joining with single spaces. */
  lemma {:induction false} SplitJoin(tokens: seq<string>)
    requires forall k :: 0 <= k < |tokens| ==> IsToken(tokens[k])
    ensures Split(Join(tokens)) == tokens
  {
    if tokens == [] {
    } else if |tokens| == 1 {
      SplitLeadingToken(tokens[0], []);
      assert tokens[0] + [] == tokens[0];
    } else {
      var rest := Join(tokens[1..]);
      SplitJoin(tokens[1..]);
      assert tokens[0] + " " + rest == tokens[0] + (" " + rest);
      SplitLeadingToken(tokens[0], " " + rest);
      assert (" " + rest)[1..] == rest;
    }
  }

  lemma TokenLengthAtSpace(a: string, c: char, b: string)
    requires IsSpace(c)
    ensures TokenLength(a + [c] + b) == TokenLength(a)
  {
    var s := a + [c] + b;
    assert forall i :: 0 <= i < |a| ==> s[i] == a[i];
    assert s[|a|] == c;
  }

  /** Any whitespace character separates tokens: a split at it splits each side on its own. */
  lemma {:induction false} SplitAtSpace(a: string, c: char, b: string)
    requires IsSpace(c)
    ensures Split(a + [c] + b) == Split(a) + Split(b)
    decreases |a|
  {
    var s := a + [c] + b;
    if a == [] {
      assert s == [c] + b;
      assert s[1..] == b;
    } else if IsSpace(a[0]) {
      assert s[0] == a[0];
      assert s[1..] == a[1..] + [c] + b;
      SplitAtSpace(a[1..], c, b);
    } else {
      var m := TokenLength(a);
      TokenLengthAtSpace(a, c, b);
      assert s[0] == a[0];
      assert s[..m] == a[..m];
      assert s[m..] == a[m..] + [c] + b;
      SplitAtSpace(a[m..], c, b);
    }
  }

  // The remaining members only prove the example below (ExampleBody): the
  // split of one literal body. They state nothing about the handler.

  /** The tokens of the example body. */
  function ExampleTokens(): seq<string>
  {
    ["check", "this", "out", "https://example.com/paper", "thanks"]
  }

  lemma JoinCons(w: string, tokens: seq<string>)
    requires tokens != []
    ensures Join([w] + tokens) == w + " " + Join(tokens)
  {
  }

  // Concatenations of the example's literals, one per lemma to keep each proof small.
  lemma ExampleText1()
    ensures "https://example.com/paper" + " " + "thanks" == "https://example.com/paper thanks"
  {
  }

  lemma ExampleText2()
    ensures "out" + " " + "https://example.com/paper thanks" == "out https://example.com/paper thanks"
  {
  }

  lemma ExampleText3()
    ensures "this" + " " + "out https://example.com/paper thanks" == "this out https://example.com/paper thanks"
  {
  }

  lemma ExampleText4()
    ensures "check" + " " + "this out https://example.com/paper thanks"
         == "check this out https://example.com/paper thanks"
  {
  }

  lemma ExampleJoin()
    ensures Join(ExampleTokens()) == "check this out https://example.com/paper thanks"
  {
    var url := "https://example.com/paper";
    ExampleText1(); ExampleText2(); ExampleText3(); ExampleText4();
    assert Join([url, "thanks"]) == "https://example.com/paper thanks" by {
      JoinCons(url, ["thanks"]);
      assert [url] + ["thanks"] == [url, "thanks"];
    }
    assert Join(["out", url, "thanks"]) == "out https://example.com/paper thanks" by {
      JoinCons("out", [url, "thanks"]);
      assert ["out"] + [url, "thanks"] == ["out", url, "thanks"];
    }
    assert Join(["this", "out", url, "thanks"]) == "this out https://example.com/paper thanks" by {
      JoinCons("this", ["out", url, "thanks"]);
      assert ["this"] + ["out", url, "thanks"] == ["this", "out", url, "thanks"];
    }
    JoinCons("check", ["this", "out", url, "thanks"]);
    assert ["check"] + ["this", "out", url, "thanks"] == ExampleTokens();
  }

  lemma ExampleFirstUrl()
    ensures FirstUrlIndex(ExampleTokens()) == Some(3)
  {
  }

  /** The first scheme-prefixed token is extracted, not a later one. */
  lemma ExampleBody()
    ensures ExtractUrl("check this out https://example.com/paper thanks") == Some("https://example.com/paper")
  {
    ExampleJoin();
    SplitJoin(ExampleTokens());
    ExampleFirstUrl();
  }
}
