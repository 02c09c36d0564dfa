// The article card: a media badge when the article has images or videos, and
// an excerpt of the content with HTML-like tags stripped
// (`content.replace(/<[^>]*>/g, '').substring(0, 150)` followed by "...").

module ArticleCard {
  import opened Seqs
  import opened Entities

  /** `article.images.length > 0 || article.videos.length > 0`. */
  function HasMedia(a: Article): (r: bool)
    ensures r <==> a.images + a.videos != []
  {
    |a.images| > 0 || |a.videos| > 0
  }

  /** The index of the first '>' in `s`, if any. */
  function FirstClose(s: string): (r: Option<nat>)
    ensures r.Some? ==> r.value < |s| && s[r.value] == '>' && '>' !in s[..r.value]
    ensures r.None? <==> '>' !in s
  {
    FirstIndex(s, (c: char) => c == '>')
  }

  /**
   * The global replace of `/<[^>]*>/` by nothing, scanning left to right: at a
   * '<' that has a '>' somewhere after it, everything up to and including the
   * first such '>' is dropped and the scan resumes after it; any other
   * character is kept and the scan moves on by one.
   */
  function StripTags(s: string): (r: string)
    ensures |r| <= |s|
    decreases |s|
  {
    if s == [] then []
    else if s[0] == '<' && FirstClose(s[1..]).Some? then StripTags(s[FirstClose(s[1..]).value + 2..])
    else [s[0]] + StripTags(s[1..])
  }

  /** Stripping only removes characters: whatever is left was in the content. */
  lemma {:induction false} StripTagsKeepsChars(s: string)
    ensures forall c :: c in StripTags(s) ==> c in s
    decreases |s|
  {
    if s == [] {
    } else if s[0] == '<' && FirstClose(s[1..]).Some? {
      var k := FirstClose(s[1..]).value;
      StripTagsKeepsChars(s[k + 2..]);
      assert forall c :: c in s[k + 2..] ==> c in s;
    } else {
      StripTagsKeepsChars(s[1..]);
      assert forall c :: c in s[1..] ==> c in s;
    }
  }

  /** No '<' is followed, anywhere after it, by a '>'. */
  predicate NoTagLeft(r: string) {
    forall i, j :: 0 <= i < j < |r| && r[i] == '<' ==> r[j] != '>'
  }

  /** After stripping, no tag is left: no remaining '<' has a '>' after it. */
  lemma {:induction false} StripTagsLeavesNoTag(s: string)
    ensures NoTagLeft(StripTags(s))
    decreases |s|
  {
    if s == [] {
    } else if s[0] == '<' && FirstClose(s[1..]).Some? {
      var k := FirstClose(s[1..]).value;
      StripTagsLeavesNoTag(s[k + 2..]);
    } else {
      var rest := StripTags(s[1..]);
      StripTagsLeavesNoTag(s[1..]);
      StripTagsKeepsChars(s[1..]);
      if s[0] == '<' {
        // No '>' follows this '<', so none survives in what follows it either.
        assert '>' !in rest;
      }
      var r := [s[0]] + rest;
      forall i, j | 0 <= i < j < |r| && r[i] == '<' ensures r[j] != '>' {
        assert r[j] == rest[j - 1];
        if i > 0 {
          assert r[i] == rest[i - 1];
        }
      }
    }
  }

  /** Content without '<' is left as it is. */
  lemma {:induction false} StripTagsWithoutOpen(s: string)
    requires '<' !in s
    ensures StripTags(s) == s
    decreases |s|
  {
    if s != [] {
      assert '<' !in s[1..];
      StripTagsWithoutOpen(s[1..]);
    }
  }

  /** Text before any '<' is kept as it is, ahead of whatever the rest strips to. */
  lemma {:induction false} StripTagsKeepsText(x: string, y: string)
    requires '<' !in x
    ensures StripTags(x + y) == x + StripTags(y)
    decreases |x|
  {
    if x == [] {
      assert x + y == y;
    } else {
      var s := x + y;
      assert s[0] == x[0] && s[0] != '<' && s[1..] == x[1..] + y;
      assert '<' !in x[1..];
      StripTagsKeepsText(x[1..], y);
      calc {
        StripTags(s);
        [s[0]] + StripTags(s[1..]);
        [x[0]] + (x[1..] + StripTags(y));
        { assert x == [x[0]] + x[1..]; }
        x + StripTags(y);
      }
    }
  }

  /** A tag, from '<' to the first '>', is dropped whole and nothing after it. */
  lemma StripTagsDropsTag(t: string, y: string)
    requires '>' !in t
    ensures StripTags("<" + t + ">" + y) == StripTags(y)
  {
    var s := "<" + t + ">" + y;
    var u := t + ">" + y;
    assert s[1..] == u;
    assert u[|t|] == '>';
    assert FirstClose(u) == Some(|t|);
    assert s[|t| + 2..] == y;
  }

  /** A paragraph tag pair is stripped down to the text between them. */
  lemma StripParagraph()
    ensures StripTags("<p>Hi</p>") == "Hi"
  {
    var hi, close := "Hi", "</p>";
    StripTagsDropsTag("/p", []);
    assert StripTags(close) == [] by {
      assert close == "<" + "/p" + ">" + [];
    }
    StripTagsKeepsText(hi, close);
    StripTagsDropsTag("p", hi + close);
    assert "<p>Hi</p>" == "<" + "p" + ">" + (hi + close);
  }

  /** `s.substring(0, n)`. */
  function Substring(s: string, n: nat): string {
    if |s| <= n then s else s[..n]
  }

  const ExcerptLength := 150

  /** The card's excerpt: the stripped content cut to 150 characters, then "...". */
  function Excerpt(content: string): (e: string)
    ensures |e| == (if |StripTags(content)| < ExcerptLength then |StripTags(content)| else ExcerptLength) + 3
    ensures e[|e| - 3..] == "..."
    ensures e[..|e| - 3] == StripTags(content)[..|e| - 3]
  {
    Substring(StripTags(content), ExcerptLength) + "..."
  }
}
