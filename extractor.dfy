/** `extractCode` (src/App.jsx:46-49): pulls the first fenced code block out of
    the model's reply with the regular expression

      ```(?:\w+)?\n?([\s\S]*?)```

    and trims the captured text, or trims the whole reply when nothing matches.

    The regular expression is modelled twice: declaratively, as the set of all
    ways the pattern matches (`RegexMatch`) together with the order in which a
    backtracking JavaScript matcher tries them (`Precedes`); and operationally,
    as a hand-written scanner (`FindFence`, `WordEnd`, `OpenerEnd`,
    `FirstBlock`). `FirstBlockIsRegexMatch` proves that the scanner finds
    exactly the match JavaScript reports. */
module Extractor {
  import opened JsString
  import opened Options

  /** The three characters "```" start at index `i` of `s`. */
  predicate IsFenceAt(s: string, i: int) {
    0 <= i && i + 3 <= |s| && s[i] == '`' && s[i + 1] == '`' && s[i + 2] == '`'
  }

  /** No fence starts at any index in [lo, hi). */
  predicate NoFenceIn(s: string, lo: int, hi: int) {
    forall k :: lo <= k < hi ==> !IsFenceAt(s, k)
  }

  /** Some fence is followed, without overlapping it, by another fence. */
  predicate HasClosedFence(s: string) {
    exists i, j :: 0 <= i < |s| && 0 <= j < |s| && IsFenceAt(s, i) && IsFenceAt(s, j) && i + 3 <= j
  }

  /** `t` matches `(?:\w+)?\n?`: word characters, then at most one line feed. */
  predicate IsOpenerTail(t: string) {
    AllWord(t) || (|t| > 0 && t[|t| - 1] == '\n' && AllWord(t[..|t| - 1]))
  }

  /** One way the whole pattern matches `s`: the opening fence at `p`, the
      capture group `s[q..k]`, the closing fence at `k`. `[\s\S]*?` accepts any
      text, so only the opener and the two fences constrain a match. */
  predicate RegexMatch(s: string, p: int, q: int, k: int) {
    IsFenceAt(s, p) && p + 3 <= q <= k && IsFenceAt(s, k) && IsOpenerTail(s[p + 3..q])
  }

  /** A match found by the scanner: opening fence, start of the captured
      text, closing fence. */
  datatype Block = Block(open: nat, bodyStart: nat, close: nat)

  /** The order in which JavaScript's matcher tries matches: leftmost start
      first; then the greedy `(?:\w+)?` and `\n?`, i.e. the longest opener;
      then the lazy `[\s\S]*?`, i.e. the nearest closing fence. */
  predicate Precedes(b: Block, p: int, q: int, k: int) {
    b.open < p || (b.open == p && (q < b.bodyStart || (q == b.bodyStart && b.close <= k)))
  }

  /** The first fence that starts at or after `from`, if any. */
  function FindFence(s: string, from: nat): (r: Option<nat>)
    decreases |s| - from
    ensures r.Some? ==> from <= r.value && r.value + 3 <= |s|
  {
    if from + 3 > |s| then None
    else if IsFenceAt(s, from) then Some(from)
    else FindFence(s, from + 1)
  }

  /** `FindFence` reports a fence with none before it, or that there is none. */
  lemma {:induction false} FindFenceFindsFirst(s: string, from: nat)
    decreases |s| - from
    ensures FindFence(s, from).Some? ==>
              IsFenceAt(s, FindFence(s, from).value) && NoFenceIn(s, from, FindFence(s, from).value)
    ensures FindFence(s, from).None? ==> NoFenceIn(s, from, |s|)
  {
    if from + 3 <= |s| && !IsFenceAt(s, from) {
      FindFenceFindsFirst(s, from + 1);
    }
  }

  /** The end of the longest run of word characters starting at `i`. */
  function WordEnd(s: string, i: nat): (j: nat)
    requires i <= |s|
    decreases |s| - i
    ensures i <= j <= |s|
  {
    if i < |s| && IsWordChar(s[i]) then WordEnd(s, i + 1) else i
  }

  /** `WordEnd` stops at the first character that is not a word character. */
  lemma {:induction false} WordEndIsLongestRun(s: string, i: nat)
    requires i <= |s|
    decreases |s| - i
    ensures forall k :: i <= k < WordEnd(s, i) ==> IsWordChar(s[k])
    ensures WordEnd(s, i) == |s| || !IsWordChar(s[WordEnd(s, i)])
  {
    if i < |s| && IsWordChar(s[i]) {
      WordEndIsLongestRun(s, i + 1);
    }
  }

  /** Where the captured text starts after the opening fence at `p`: past the
      longest language tag and one line feed, if there is one. */
  function OpenerEnd(s: string, p: nat): (q: nat)
    requires p + 3 <= |s|
    ensures p + 3 <= q <= |s|
  {
    var w := WordEnd(s, p + 3);
    if w < |s| && s[w] == '\n' then w + 1 else w
  }

  /** What `OpenerEnd` skips matches `(?:\w+)?\n?` and holds no backtick. */
  lemma OpenerEndSkipsOpener(s: string, p: nat)
    requires p + 3 <= |s|
    ensures IsOpenerTail(s[p + 3..OpenerEnd(s, p)])
    ensures forall k :: p + 3 <= k < OpenerEnd(s, p) ==> s[k] != '`'
  {
    var w := WordEnd(s, p + 3);
    WordEndIsLongestRun(s, p + 3);
    assert AllWord(s[p + 3..w]);
    if w < |s| && s[w] == '\n' {
      assert s[p + 3..w + 1][..w - p - 3] == s[p + 3..w];
    }
  }

  /** The scanner: the first fence, its opener, then the first fence after
      the opener. There is no match when either fence is missing. */
  function FirstBlock(s: string): (m: Option<Block>)
    ensures m.Some? ==> m.value.open + 3 <= m.value.bodyStart <= m.value.close
                        && m.value.close + 3 <= |s|
  {
    match FindFence(s, 0)
    case None => None
    case Some(p) =>
      var q := OpenerEnd(s, p);
      match FindFence(s, q)
      case None => None
      case Some(k) => Some(Block(p, q, k))
  }

  /** The scanner's block opens at the first fence and closes at the first
      fence after the opener; it finds none exactly when no fence is closed. */
  lemma FirstBlockFindsFirstFences(s: string)
    ensures FirstBlock(s).Some? ==>
              var b := FirstBlock(s).value;
              IsFenceAt(s, b.open) && NoFenceIn(s, 0, b.open)
              && b.bodyStart == OpenerEnd(s, b.open)
              && IsFenceAt(s, b.close) && NoFenceIn(s, b.open + 3, b.close)
    ensures FirstBlock(s).None? <==> !HasClosedFence(s)
  {
    FindFenceFindsFirst(s, 0);
    match FindFence(s, 0)
    case None =>
    case Some(p) =>
      var q := OpenerEnd(s, p);
      OpenerEndSkipsOpener(s, p);
      FindFenceFindsFirst(s, q);
      match FindFence(s, q)
      case None =>
        assert forall i, j :: IsFenceAt(s, i) && IsFenceAt(s, j) && i + 3 <= j ==> s[j] == '`' && p <= i;
      case Some(k) =>
        assert forall j :: p + 3 <= j < q ==> !IsFenceAt(s, j);
        assert IsFenceAt(s, p) && IsFenceAt(s, k);
  }

  /** `extractCode`: the trimmed capture of the first match, or the trimmed
      reply when the pattern does not match. Never has whitespace at an end. */
  function ExtractCode(response: string): (code: string)
    ensures NoEdgeWhitespace(code)
  {
    match FirstBlock(response)
    case Some(b) => Trim(response[b.bodyStart..b.close])
    case None => Trim(response)
  }

  /** Every opener that matches after the fence at `p` ends no later than the
      greedy one the scanner takes. */
  lemma {:induction false} OpenerEndIsLongest(s: string, p: nat, q: int)
    requires p + 3 <= q <= |s| && IsOpenerTail(s[p + 3..q])
    ensures q <= OpenerEnd(s, p)
  {
    var w := WordEnd(s, p + 3);
    WordEndIsLongestRun(s, p + 3);
    var t := s[p + 3..q];
    if AllWord(t) {
      assert forall k :: p + 3 <= k < q ==> IsWordChar(s[k]) by {
        forall k | p + 3 <= k < q ensures IsWordChar(s[k]) {
          assert s[k] == t[k - p - 3];
        }
      }
    } else {
      assert s[q - 1] == t[|t| - 1] == '\n';
      assert forall k :: p + 3 <= k < q - 1 ==> IsWordChar(s[k]) by {
        forall k | p + 3 <= k < q - 1 ensures IsWordChar(s[k]) {
          assert s[k] == t[..|t| - 1][k - p - 3];
        }
      }
    }
  }

  /** The scanner finds the match a JavaScript matcher reports: it is a
      match, it comes first in the matcher's order, and the scanner reports
      none exactly when the pattern has no match at all. */
  lemma {:induction false} FirstBlockIsRegexMatch(s: string)
    ensures FirstBlock(s).Some? ==>
      var b := FirstBlock(s).value;
      RegexMatch(s, b.open, b.bodyStart, b.close)
      && forall p, q, k :: RegexMatch(s, p, q, k) ==> Precedes(b, p, q, k)
    ensures FirstBlock(s).None? <==> forall p, q, k :: !RegexMatch(s, p, q, k)
  {
    FirstBlockFindsFirstFences(s);
    match FirstBlock(s)
    case None =>
      assert !HasClosedFence(s);
    case Some(b) =>
      OpenerEndSkipsOpener(s, b.open);
      forall p, q, k | RegexMatch(s, p, q, k) ensures Precedes(b, p, q, k) {
        assert b.open <= p;
        if b.open == p {
          OpenerEndIsLongest(s, p, q);
          if q == b.bodyStart {
            assert b.close <= k;
          }
        }
      }
      assert RegexMatch(s, b.open, b.bodyStart, b.close);
  }

  /** The pattern matches exactly when some fence is later closed by another
      that does not overlap it; an unterminated fence is no match. */
  lemma RegexMatchesIffClosedFence(s: string)
    ensures (exists p, q, k :: RegexMatch(s, p, q, k)) <==> HasClosedFence(s)
  {
    FirstBlockIsRegexMatch(s);
    FirstBlockFindsFirstFences(s);
    if exists p, q, k :: RegexMatch(s, p, q, k) {
      var p, q, k :| RegexMatch(s, p, q, k);
      assert IsFenceAt(s, p) && IsFenceAt(s, k) && p + 3 <= k;
    }
  }

  /** When the pattern matches, `extractCode` returns the trimmed capture of
      the match JavaScript reports. */
  lemma ExtractCodeOfRegexMatch(s: string, p: int, q: int, k: int)
    requires RegexMatch(s, p, q, k)
    requires forall p', q', k' :: RegexMatch(s, p', q', k') ==> Precedes(Block(p, q, k), p', q', k')
    ensures ExtractCode(s) == Trim(s[q..k])
  {
    FirstBlockIsRegexMatch(s);
    var b := FirstBlock(s).value;
    assert RegexMatch(s, b.open, b.bodyStart, b.close);
    assert Precedes(Block(p, q, k), b.open, b.bodyStart, b.close);
    assert Precedes(b, p, q, k);
    assert b == Block(p, q, k);
  }

  /** When the pattern does not match (no fence, or a fence never closed),
      `extractCode` returns the trimmed reply. */
  lemma ExtractCodeFallback(s: string)
    requires !HasClosedFence(s)
    ensures ExtractCode(s) == Trim(s)
  {
    FirstBlockFindsFirstFences(s);
  }

  /** Text without fences is returned trimmed, and extracting again changes
      nothing. */
  lemma {:induction false} ExtractCodeIdempotentWithoutFences(s: string)
    requires NoFenceIn(s, 0, |s|)
    ensures ExtractCode(s) == Trim(s)
    ensures ExtractCode(ExtractCode(s)) == ExtractCode(s)
  {
    NoFenceIsUnclosed(s);
    ExtractCodeFallback(s);
    TrimKeepsNoFence(s);
    NoFenceIsUnclosed(Trim(s));
    ExtractCodeFallback(Trim(s));
    TrimIdempotent(s);
  }

  /** Text without any fence has no closed fence. */
  lemma NoFenceIsUnclosed(s: string)
    requires NoFenceIn(s, 0, |s|)
    ensures !HasClosedFence(s)
  {
  }

  /** Trimming fence-free text leaves it fence-free. */
  lemma TrimKeepsNoFence(s: string)
    requires NoFenceIn(s, 0, |s|)
    ensures NoFenceIn(Trim(s), 0, |Trim(s)|)
  {
    var r := Trim(s);
    TrimIsSlice(s);
    var i :| IsTrimmedSlice(s, r, i);
    forall k | 0 <= k < |r| ensures !IsFenceAt(r, k) {
      if IsFenceAt(r, k) {
        assert IsFenceAt(s, i + k);
      }
    }
  }

  /** Whenever what `extractCode` returned holds no complete fenced block,
      extracting it again returns it unchanged. */
  lemma ExtractCodeStable(s: string)
    requires !HasClosedFence(ExtractCode(s))
    ensures ExtractCode(ExtractCode(s)) == ExtractCode(s)
  {
    TrimKeepsTrimmed(ExtractCode(s));
    ExtractCodeFallback(ExtractCode(s));
  }

  /** `FindFence` reports the first fence at or after `from`. */
  lemma {:induction false} FindFenceIsFirst(s: string, from: nat, i: nat)
    requires from <= i && IsFenceAt(s, i) && NoFenceIn(s, from, i)
    ensures FindFence(s, from) == Some(i)
    decreases i - from
  {
    if from < i {
      FindFenceIsFirst(s, from + 1, i);
    }
  }

  /** `WordEnd` reports the end of the word run. */
  lemma {:induction false} WordEndIsEnd(s: string, i: nat, j: nat)
    requires i <= j < |s| && !IsWordChar(s[j])
    requires forall k :: i <= k < j ==> IsWordChar(s[k])
    ensures WordEnd(s, i) == j
    decreases j - i
  {
    if i < j {
      WordEndIsEnd(s, i + 1, j);
    }
  }

  /** A block in the shape the prompt asks for: opening fence, language tag,
      line feed, the document, closing fence. */
  function FencedBlock(tag: string, body: string): string {
    "```" + tag + "\n" + body + "```"
  }

  /** Round trip: whatever prose surrounds a block of the requested shape,
      `extractCode` returns the trimmed document inside it, provided the
      prose before it and the document hold no fence of their own. */
  lemma {:induction false} ExtractCodeOfFencedBlock(before: string, tag: string, body: string, after: string)
    requires NoFenceIn(before + "```", 0, |before|)
    requires AllWord(tag)
    requires NoFenceIn(body + "```", 0, |body|)
    ensures ExtractCode(before + FencedBlock(tag, body) + after) == Trim(body)
  {
    var s := before + FencedBlock(tag, body) + after;
    var q := |before| + 3 + |tag| + 1;
    FencedBlockOpens(before, tag, body, after);
    FencedBlockCloses(before, tag, body, after);
    assert FirstBlock(s) == Some(Block(|before|, q, q + |body|));
  }

  /** In such a text the first fence is the block's, and its opener ends
      after the tag and the line feed. */
  lemma FencedBlockOpens(before: string, tag: string, body: string, after: string)
    requires NoFenceIn(before + "```", 0, |before|)
    requires AllWord(tag)
    ensures var s := before + FencedBlock(tag, body) + after;
            FindFence(s, 0) == Some(|before|) && OpenerEnd(s, |before|) == |before| + 3 + |tag| + 1
  {
    var s := before + FencedBlock(tag, body) + after;
    var p := |before|;
    var w := p + 3 + |tag|;
    assert s == before + "```" + tag + "\n" + body + "```" + after;
    assert IsFenceAt(s, p);
    forall j | 0 <= j < p ensures !IsFenceAt(s, j) {
      assert IsFenceAt(s, j) == IsFenceAt(before + "```", j);
    }
    FindFenceIsFirst(s, 0, p);
    forall j | p + 3 <= j < w ensures IsWordChar(s[j]) {
      assert s[j] == tag[j - p - 3];
    }
    assert s[w] == '\n';
    WordEndIsEnd(s, p + 3, w);
  }

  /** In such a text the first fence after the opener closes the block, and
      what lies between is the document. */
  lemma FencedBlockCloses(before: string, tag: string, body: string, after: string)
    requires NoFenceIn(body + "```", 0, |body|)
    ensures var s := before + FencedBlock(tag, body) + after;
            var q := |before| + 3 + |tag| + 1;
            FindFence(s, q) == Some(q + |body|) && s[q..q + |body|] == body
  {
    var s := before + FencedBlock(tag, body) + after;
    var q := |before| + 3 + |tag| + 1;
    var k := q + |body|;
    assert s == (before + "```" + tag + "\n") + (body + "```") + after;
    assert IsFenceAt(s, k);
    forall j | q <= j < k ensures !IsFenceAt(s, j) {
      assert IsFenceAt(s, j) == IsFenceAt(body + "```", j - q);
    }
    FindFenceIsFirst(s, q, k);
    assert s[q..k] == body;
  }

  /** Text after a complete block, including further blocks, is ignored. */
  lemma {:induction false} ExtractCodeIgnoresTrailingText(s: string, t: string)
    requires HasClosedFence(s)
    ensures ExtractCode(s + t) == ExtractCode(s)
  {
    FirstBlockFindsFirstFences(s);
    var b := FirstBlock(s).value;
    var u := s + t;
    forall j | 0 <= j <= b.close ensures IsFenceAt(u, j) == IsFenceAt(s, j) {
    }
    FindFenceIsFirst(u, 0, b.open);
    var w := WordEnd(s, b.open + 3);
    WordEndIsLongestRun(s, b.open + 3);
    forall j | b.open + 3 <= j < w ensures IsWordChar(u[j]) {
      assert u[j] == s[j];
    }
    assert w < |s| && u[w] == s[w];
    WordEndIsEnd(u, b.open + 3, w);
    assert OpenerEnd(u, b.open) == b.bodyStart;
    FindFenceIsFirst(u, b.bodyStart, b.close);
    assert u[b.bodyStart..b.close] == s[b.bodyStart..b.close];
  }
}
