/**
 * The fenced-code-block extractor: the module-level pattern
 * "```python\n(.*?)\n```" compiled with DOTALL, searched once over the
 * model's reply, and the interior of its first match (or "" without one).
 *
 * The pattern is stated twice. `IsMatch` and `IsSearchResult` say what a
 * leftmost search with a lazy `.*?` accepts, position by position;
 * `Locate` computes it with two string searches (the first opener, then the
 * first closer at or after the opener's end). `MatchCodeBlocks` is tied to
 * the declarative reading by its contract, and the lemmas below use only that.
 */
module CodeBlocks {
  import opened Text

  /** The opening fence: three backticks, the exact tag `python`, a line feed. */
  const Opener: string := "```python\n"

  /** The closing fence: a line feed, then three backticks. */
  const Closer: string := "\n```"

  /**
   * The pattern matches `s` with its opener at `p` and its closer at `q`:
   * with DOTALL the group `(.*?)` takes any characters at all, so only the
   * two fences constrain the match, and the closer starts at or after the
   * opener's end.
   */
  ghost predicate IsMatch(s: string, p: int, q: int) {
    OccursAt(Opener, s, p) && p + |Opener| <= q && OccursAt(Closer, s, q)
  }

  /**
   * The match a search reports: the leftmost start with any match at all,
   * and at that start the shortest group, because `.*?` is lazy.
   */
  ghost predicate IsSearchResult(s: string, p: int, q: int) {
    && IsMatch(s, p, q)
    && (forall p', q' :: IsMatch(s, p', q') ==> p <= p')
    && (forall q' :: IsMatch(s, p, q') ==> q <= q')
  }

  /** Where a match sits: the index of its opener and the index of its closer. */
  datatype Span = Span(open: nat, close: nat)

  /**
   * The search over the whole reply: the first opener, then the first closer
   * at or after the end of that opener. If the first opener has no closer
   * after it, no later opener can have one either, so the search gives up.
   */
  function Locate(s: string): (r: Option<Span>)
    ensures r.Some? ==> IsSearchResult(s, r.value.open, r.value.close)
    ensures r.None? ==> forall p, q :: !IsMatch(s, p, q)
  {
    match FindFrom(Opener, s, 0)
    case None => None
    case Some(p) =>
      match FindFrom(Closer, s, p + |Opener|)
      case None => None
      case Some(q) => Some(Span(p, q))
  }

  /**
   * The interior of the first block, without either fence, or "" when the
   * reply holds no block.
   */
  function MatchCodeBlocks(s: string): (r: string)
    ensures forall p, q :: IsSearchResult(s, p, q) ==> r == s[p + |Opener|..q]
    ensures (forall p, q :: !IsMatch(s, p, q)) ==> r == ""
  {
    match Locate(s)
    case None => ""
    case Some(span) => s[span.open + |Opener|..span.close]
  }

  /** At most one match is the one the search reports. */
  lemma SearchResultUnique(s: string, p: int, q: int, p2: int, q2: int)
    requires IsSearchResult(s, p, q) && IsSearchResult(s, p2, q2)
    ensures p == p2 && q == q2
  {
  }

  /**
   * No closer straddles the end of a text followed by a closer: "\n```"
   * overlaps itself nowhere, since no proper suffix of it is a prefix of it.
   */
  lemma CloserDoesNotOverlapItself(c: string, j: int)
    requires j < |c| < j + |Closer|
    ensures !OccursAt(Closer, c + Closer, j)
  {
    if 0 <= j {
      assert (c + Closer)[j..j + |Closer|][|c| - j] == (c + Closer)[|c|] == Closer[0];
    }
  }

  /** The extracted code never holds the closing fence: the group stops at the first one. */
  lemma ResultHasNoCloser(s: string)
    ensures !Contains(MatchCodeBlocks(s), Closer)
  {
    match Locate(s)
    case None =>
    case Some(span) =>
      var lo := span.open + |Opener|;
      var r := s[lo..span.close];
      assert MatchCodeBlocks(s) == r;
      forall k | OccursAt(Closer, r, k)
        ensures false
      {
        OccursInSlice(Closer, s, lo, span.close, k);
      }
  }

  /**
   * Wrapping code in the fences the prompt asks for and extracting it gives
   * the code back, whatever line breaks it holds, provided it does not itself
   * contain the closing fence.
   */
  lemma {:induction false} RoundTrip(code: string)
    requires !Contains(code, Closer)
    ensures MatchCodeBlocks(Opener + code + Closer) == code
  {
    var s := Opener + code + Closer;
    var q := |Opener| + |code|;
    assert s[0..|Opener|] == Opener;
    assert s[q..q + |Closer|] == Closer;
    assert IsMatch(s, 0, q);
    forall q' | IsMatch(s, 0, q')
      ensures q <= q'
    {
      if q' < q {
        var tail := code + Closer;
        assert s == Opener + tail;
        assert s[|Opener|..] == tail;
        var k := q' - |Opener|;
        assert tail[k..k + |Closer|] == s[q'..q' + |Closer|];
        assert OccursAt(Closer, tail, k);
        if k + |Closer| <= |code| {
          OccursWithinPrefix(Closer, code, Closer, k);
          assert Contains(code, Closer);
        } else {
          CloserDoesNotOverlapItself(code, k);
        }
      }
    }
    assert IsSearchResult(s, 0, q);
    assert s[|Opener|..q] == code;
  }

  /**
   * Text after a matched block never changes the search: the same opener and
   * the same closer are found in `a + b` as in `a`.
   */
  lemma {:induction false} MatchedPrefixStable(a: string, b: string)
    requires Locate(a).Some?
    ensures Locate(a + b) == Locate(a)
    ensures MatchCodeBlocks(a + b) == MatchCodeBlocks(a)
  {
    var p, q := Locate(a).value.open, Locate(a).value.close;
    var s := a + b;
    OccursInPrefix(Opener, a, b, p);
    OccursInPrefix(Closer, a, b, q);
    assert IsMatch(s, p, q);
    forall p', q' | IsMatch(s, p', q')
      ensures p <= p'
    {
      if p' < p {
        OccursWithinPrefix(Opener, a, b, p');
        assert IsMatch(a, p', q);
      }
    }
    forall q' | IsMatch(s, p, q')
      ensures q <= q'
    {
      if q' < q {
        OccursWithinPrefix(Closer, a, b, q');
        assert IsMatch(a, p, q');
      }
    }
    assert IsSearchResult(s, p, q);
    var r := Locate(s);
    SearchResultUnique(s, p, q, r.value.open, r.value.close);
    assert s[p + |Opener|..q] == a[p + |Opener|..q];
  }

  /**
   * Only the first block counts: whatever follows a well-formed block,
   * further blocks included, the extracted code is that block's interior.
   */
  lemma {:induction false} FirstBlockWins(code: string, rest: string)
    requires !Contains(code, Closer)
    ensures MatchCodeBlocks(Opener + code + Closer + rest) == code
  {
    RoundTrip(code);
    MatchedPrefixStable(Opener + code + Closer, rest);
  }

  /** A match in `w` is a match in `prose + w`, moved along by the length of `prose`. */
  lemma MatchShiftsRight(prose: string, w: string, p: int, q: int)
    requires IsMatch(w, p, q)
    ensures IsMatch(prose + w, |prose| + p, |prose| + q)
  {
    OccursInSuffix(Opener, prose, w, p);
    OccursInSuffix(Closer, prose, w, q);
  }

  /**
   * When `prose` holds no backtick, every match in `prose + w` lies wholly in
   * `w`: an opener begins with a backtick, and its closer comes after it.
   */
  lemma MatchShiftsLeft(prose: string, w: string, p: int, q: int)
    requires '`' !in prose
    requires IsMatch(prose + w, p, q)
    ensures |prose| <= p && IsMatch(w, p - |prose|, q - |prose|)
  {
    var s := prose + w;
    var n := |prose|;
    if p < n {
      assert s[p] == prose[p];
      MismatchExcludes(Opener, s, p, 0);
    } else {
      OccursInSuffix(Opener, prose, w, p - n);
      OccursInSuffix(Closer, prose, w, q - n);
    }
  }

  /** Backtick-free prose in front of a text moves its reported match along, unchanged. */
  lemma SearchResultShifts(prose: string, w: string, p: int, q: int)
    requires '`' !in prose
    requires IsSearchResult(w, p, q)
    ensures IsSearchResult(prose + w, |prose| + p, |prose| + q)
  {
    var s := prose + w;
    var n := |prose|;
    MatchShiftsRight(prose, w, p, q);
    forall p', q' | IsMatch(s, p', q')
      ensures n + p <= p'
    {
      MatchShiftsLeft(prose, w, p', q');
    }
    var start := n + p;
    forall q' | IsMatch(s, start, q')
      ensures n + q <= q'
    {
      MatchShiftsLeft(prose, w, start, q');
    }
  }

  /**
   * Prose before the first block that holds no backtick changes nothing:
   * the extracted code is the same with or without it, block or no block.
   */
  lemma {:induction false} LeadingProseIgnored(prose: string, w: string)
    requires '`' !in prose
    ensures MatchCodeBlocks(prose + w) == MatchCodeBlocks(w)
  {
    var s := prose + w;
    var n := |prose|;
    match Locate(w)
    case None =>
      forall p, q | IsMatch(s, p, q)
        ensures false
      {
        MatchShiftsLeft(prose, w, p, q);
      }
    case Some(span) =>
      SearchResultShifts(prose, w, span.open, span.close);
      SliceInSuffix(prose, w, span.open + |Opener|, span.close);
  }

  /**
   * The usual shape of a reply: prose without backticks, one well-formed
   * block, then anything at all. The extracted code is that block's interior.
   */
  lemma {:induction false} BlockAfterProse(prose: string, code: string, rest: string)
    requires '`' !in prose && !Contains(code, Closer)
    ensures MatchCodeBlocks(prose + (Opener + code + Closer + rest)) == code
  {
    FirstBlockWins(code, rest);
    LeadingProseIgnored(prose, Opener + code + Closer + rest);
  }

  /** A reply without the opening fence gives "". */
  lemma NoOpenerGivesEmpty(s: string)
    requires !Contains(s, Opener)
    ensures MatchCodeBlocks(s) == ""
  {
  }

  /**
   * A reply whose first opening fence has no closing fence anywhere after it
   * gives "": a later opener would need a closer further on still.
   */
  lemma UnclosedOpenerGivesEmpty(s: string, p: nat)
    requires OccursAt(Opener, s, p)
    requires forall i :: 0 <= i < p ==> !OccursAt(Opener, s, i)
    requires !Contains(s[p + |Opener|..], Closer)
    ensures MatchCodeBlocks(s) == ""
  {
    var n := p + |Opener|;
    assert s == s[..n] + s[n..];
    forall p', q' | IsMatch(s, p', q')
      ensures false
    {
      OccursInSuffix(Closer, s[..n], s[n..], q' - n);
    }
  }

  /**
   * The result is "" exactly when there is no match, or when the first
   * match's closer follows its opener directly ("```python\n\n```").
   * A caller cannot tell those two apart.
   */
  lemma EmptyResultIff(s: string)
    ensures MatchCodeBlocks(s) == "" <==>
      (forall p, q :: !IsMatch(s, p, q)) || (exists p, q :: IsSearchResult(s, p, q) && q == p + |Opener|)
  {
    match Locate(s)
    case None =>
    case Some(span) =>
      if MatchCodeBlocks(s) == "" {
        assert span.close == span.open + |Opener|;
        assert IsSearchResult(s, span.open, span.open + |Opener|);
      }
      if p, q :| IsSearchResult(s, p, q) && q == p + |Opener| {
        SearchResultUnique(s, p, q, span.open, span.close);
      }
  }

  /**
   * A fence written "```python\n```" is not an empty block: the closer must
   * begin with its own line feed, so the opener's line feed cannot be shared.
   * Unless a closer turns up later in the text, nothing is extracted.
   */
  lemma {:induction false} EmptyFenceNotABlock(tail: string)
    requires !Contains(tail, Closer)
    ensures MatchCodeBlocks(Opener + "```" + tail) == ""
  {
    var head := Opener + "```";
    var s := head + tail;
    assert Opener + "```" + tail == s;
    forall q | |Opener| <= q
      ensures !OccursAt(Closer, s, q)
    {
      if q < |head| {
        MismatchExcludes(Closer, s, q, 0);
      } else if q + |Closer| <= |s| {
        var k := q - |head|;
        assert s[q..q + |Closer|] == tail[k..k + |Closer|];
        assert !OccursAt(Closer, tail, k);
      }
    }
  }

  /**
   * The opening tag is matched exactly: a reply that starts with a shorter
   * tag, another letter case or a carriage return before the line feed, and
   * holds no exact opener after it, gives "" whatever follows.
   */
  lemma {:induction false} WrongTagNotAnOpener(tag: string, body: string)
    requires tag == "```py\n" || tag == "```Python\n" || tag == "```python\r\n"
    requires !Contains(body, Opener)
    ensures MatchCodeBlocks(tag + body) == ""
  {
    var s := tag + body;
    forall i | 0 <= i <= |s|
      ensures !OccursAt(Opener, s, i)
    {
      if |tag| <= i {
        OccursInSuffix(Opener, tag, body, i - |tag|);
      } else if i == 0 {
        // the first character where the tag and the opener part ways
        var j := if tag == "```py\n" then 5 else if tag == "```Python\n" then 3 else 9;
        assert s[j] == tag[j];
        MismatchExcludes(Opener, s, 0, j);
      } else if i < 3 {
        assert s[3] == tag[3];
        MismatchExcludes(Opener, s, i, 3 - i);
      } else {
        assert s[i] == tag[i];
        MismatchExcludes(Opener, s, i, 0);
      }
    }
    NoOpenerGivesEmpty(s);
  }
}
