/** `parse_json_from_response`: pick a JSON candidate out of an LLM reply in three
    stages (fenced block, first bare bracketed span, whole stripped reply) and parse it,
    falling back to the reply itself. `json.loads` is a parameter.

    The two regular expressions are modelled by their leftmost-first match semantics
    (`re.search` tries start positions from left to right and, at each, explores
    alternatives in backtracking order):

    - fenced: "```" at p, then "json" if present, then white space. The `\s*` is
      greedy, and a bracket never is white space, so only the maximal white-space run
      can be followed by the bracket: the group starts at `BracketStart(s, p)`. The
      lazy `.*?` then takes the smallest closing position c of the same kind for which
      the maximal white space after c is followed by "```". (When "json" follows the
      fence but no match exists after it, the retry without "json" fails at once on the
      letter 'j'.)
    - bare: the leftmost opening bracket that has a closing bracket of the same kind
      after it; the lazy `.*?` stops at the first such closing bracket.
*/
module JsonExtraction {
  import opened Common
  import opened Text

  const Fence: string := "```"

  predicate IsOpen(c: char) {
    c == '[' || c == '{'
  }

  function Closer(c: char): char
    requires IsOpen(c)
  {
    if c == '[' then ']' else '}'
  }

  predicate FenceAt(s: string, i: nat) {
    i + 3 <= |s| && s[i..i + 3] == Fence
  }

  /** Where the group of a fenced match opening at p begins. */
  function BracketStart(s: string, p: nat): (b: nat)
    requires FenceAt(s, p)
    ensures p + 3 <= b <= |s|
  {
    var q := if p + 7 <= |s| && s[p + 3..p + 7] == "json" then p + 7 else p + 3;
    SkipSpace(s, q)
  }

  /** The fenced pattern matches with its fence at p and its group ending at c. */
  predicate FencedMatch(s: string, p: nat, c: nat) {
    && FenceAt(s, p)
    && BracketStart(s, p) < c < |s|
    && IsOpen(s[BracketStart(s, p)])
    && s[c] == Closer(s[BracketStart(s, p)])
    && FenceAt(s, SkipSpace(s, c + 1))
  }

  /** The match `re.search` reports for the fenced pattern: leftmost fence, then the
      shortest group. */
  ghost predicate LeftmostFenced(s: string, p: nat, c: nat) {
    && FencedMatch(s, p, c)
    && (forall p': nat, c': nat :: p' < p ==> !FencedMatch(s, p', c'))
    && (forall c': nat :: c' < c ==> !FencedMatch(s, p, c'))
  }

  ghost predicate NoFencedMatch(s: string) {
    forall p: nat, c: nat :: !FencedMatch(s, p, c)
  }

  /** The bare pattern matches with its group from p to c. */
  predicate BareMatch(s: string, p: nat, c: nat) {
    p < c < |s| && IsOpen(s[p]) && s[c] == Closer(s[p])
  }

  ghost predicate LeftmostBare(s: string, p: nat, c: nat) {
    && BareMatch(s, p, c)
    && (forall p': nat, c': nat :: p' < p ==> !BareMatch(s, p', c'))
    && (forall c': nat :: c' < c ==> !BareMatch(s, p, c'))
  }

  ghost predicate NoBareMatch(s: string) {
    forall p: nat, c: nat :: !BareMatch(s, p, c)
  }

  /** Shortest group end, at or after `from`, for the fence at p. */
  function FindFenceEnd(s: string, p: nat, from: nat): (r: Option<nat>)
    requires FenceAt(s, p)
    ensures r.Some? ==> from <= r.value && FencedMatch(s, p, r.value)
    ensures r.Some? ==> forall c: nat :: from <= c < r.value ==> !FencedMatch(s, p, c)
    ensures r.None? ==> forall c: nat :: from <= c ==> !FencedMatch(s, p, c)
    decreases |s| - from
  {
    if from >= |s| then None
    else if FencedMatch(s, p, from) then Some(from)
    else FindFenceEnd(s, p, from + 1)
  }

  /** Leftmost fenced match whose fence is at or after `from`, as (fence, group end). */
  function FindFenced(s: string, from: nat): (r: Option<(nat, nat)>)
    ensures r.Some? ==> from <= r.value.0 && FencedMatch(s, r.value.0, r.value.1)
    ensures r.Some? ==> forall p: nat, c: nat :: from <= p < r.value.0 ==> !FencedMatch(s, p, c)
    ensures r.Some? ==> forall c: nat :: c < r.value.1 ==> !FencedMatch(s, r.value.0, c)
    ensures r.None? ==> forall p: nat, c: nat :: from <= p ==> !FencedMatch(s, p, c)
    decreases |s| - from
  {
    if from >= |s| then None
    else if FenceAt(s, from) then
      match FindFenceEnd(s, from, 0)
      case Some(c) => Some((from, c))
      case None => FindFenced(s, from + 1)
    else FindFenced(s, from + 1)
  }

  /** First index at or after `from` holding `close`. */
  function FindClose(s: string, close: char, from: nat): (r: Option<nat>)
    ensures r.Some? ==> from <= r.value < |s| && s[r.value] == close
    ensures r.Some? ==> forall k :: from <= k < r.value ==> s[k] != close
    ensures r.None? ==> forall k :: from <= k < |s| ==> s[k] != close
    decreases |s| - from
  {
    if from >= |s| then None
    else if s[from] == close then Some(from)
    else FindClose(s, close, from + 1)
  }

  /** Leftmost bare match starting at or after `from`. */
  function FindBare(s: string, from: nat): (r: Option<(nat, nat)>)
    ensures r.Some? ==> from <= r.value.0 && BareMatch(s, r.value.0, r.value.1)
    ensures r.Some? ==> forall p: nat, c: nat :: from <= p < r.value.0 ==> !BareMatch(s, p, c)
    ensures r.Some? ==> forall c: nat :: c < r.value.1 ==> !BareMatch(s, r.value.0, c)
    ensures r.None? ==> forall p: nat, c: nat :: from <= p ==> !BareMatch(s, p, c)
    decreases |s| - from
  {
    if from >= |s| then None
    else if IsOpen(s[from]) then
      match FindClose(s, Closer(s[from]), from + 1)
      case Some(c) => Some((from, c))
      case None => FindBare(s, from + 1)
    else FindBare(s, from + 1)
  }

  /** The string handed to `json.loads`, chosen in three stages. */
  function Candidate(s: string): (r: string)
    ensures |r| <= |s|
  {
    match FindFenced(s, 0)
    case Some((p, c)) => s[BracketStart(s, p)..c + 1]
    case None =>
      match FindBare(s, 0)
      case Some((p, c)) => s[p..c + 1]
      case None => Strip(s)
  }

  /** Stage one: when the fenced pattern matches, the candidate is the group of the
      match `re.search` reports. */
  lemma CandidateFenced(s: string, p: nat, c: nat)
    requires LeftmostFenced(s, p, c)
    ensures Candidate(s) == s[BracketStart(s, p)..c + 1]
  {
    var r := FindFenced(s, 0);
    assert r.Some?;
    LeftmostFencedUnique(s, r.value.0, r.value.1, p, c);
  }

  /** Stage two: with no fenced match, the candidate is the leftmost bare span. */
  lemma CandidateBare(s: string, p: nat, c: nat)
    requires NoFencedMatch(s)
    requires LeftmostBare(s, p, c)
    ensures Candidate(s) == s[p..c + 1]
  {
    var r := FindFenced(s, 0);
    assert r.None?;
    var r' := FindBare(s, 0);
    assert r'.Some?;
    LeftmostBareUnique(s, r'.value.0, r'.value.1, p, c);
  }

  /** Stage three: with neither pattern matching, the candidate is the stripped reply. */
  lemma CandidateStripped(s: string)
    requires NoFencedMatch(s) && NoBareMatch(s)
    ensures Candidate(s) == Strip(s)
  {
    var r := FindFenced(s, 0);
    assert r.None?;
    var r' := FindBare(s, 0);
    assert r'.None?;
  }

  /** Whenever some fenced match exists, the one `re.search` reports exists too. */
  lemma LeftmostFencedExists(s: string, p: nat, c: nat)
    requires FencedMatch(s, p, c)
    ensures exists p': nat, c': nat :: LeftmostFenced(s, p', c')
  {
    var r := FindFenced(s, 0);
    assert r.Some?;
    assert LeftmostFenced(s, r.value.0, r.value.1);
  }

  lemma LeftmostFencedUnique(s: string, p: nat, c: nat, p': nat, c': nat)
    requires LeftmostFenced(s, p, c) && LeftmostFenced(s, p', c')
    ensures p == p' && c == c'
  {
  }

  lemma LeftmostBareUnique(s: string, p: nat, c: nat, p': nat, c': nat)
    requires LeftmostBare(s, p, c) && LeftmostBare(s, p', c')
    ensures p == p' && c == c'
  {
  }

  /** A bracketed text the fenced pattern can carry whole: it opens with `[` or `{`,
      closes with the matching bracket, and holds no backtick. */
  predicate Bracketed(t: string) {
    && |t| >= 2 && IsOpen(t[0]) && t[|t| - 1] == Closer(t[0])
    && forall i | 0 <= i < |t| :: t[i] != '`'
  }

  /** A reply that is just a ```` ```json ```` block. */
  function FencedBlock(t: string): string {
    Fence + "json\n" + t + "\n" + Fence
  }

  /** Where each piece of a fenced block sits. */
  lemma FencedBlockLayout(t: string)
    ensures var s := FencedBlock(t);
            && |s| == 12 + |t|
            && FenceAt(s, 0) && s[3..7] == "json" && s[7] == '\n'
            && s[8..8 + |t|] == t
            && (forall i | 0 <= i < |t| :: s[8 + i] == t[i])
            && s[8 + |t|] == '\n' && FenceAt(s, 9 + |t|)
  {
    var s := FencedBlock(t);
    assert s == Fence + "json\n" + t + "\n" + Fence;
    assert s[0..3] == Fence;
    assert s[9 + |t|..12 + |t|] == Fence;
  }

  /** In a fenced block the group opens right after the tag's line break and the fenced
      pattern matches with its group ending at the text's last character. */
  lemma FencedBlockMatches(t: string)
    requires Bracketed(t)
    ensures BracketStart(FencedBlock(t), 0) == 8
    ensures FencedMatch(FencedBlock(t), 0, 7 + |t|)
  {
    var s := FencedBlock(t);
    FencedBlockLayout(t);
    assert s[8] == t[0];
    assert SkipSpace(s, 8) == 8;
    assert SkipSpace(s, 7) == 8;
    assert s[7 + |t|] == t[|t| - 1];
    assert SkipSpace(s, 9 + |t|) == 9 + |t|;
    assert SkipSpace(s, 8 + |t|) == 9 + |t|;
  }

  /** Skipping white space from `from` stops at or before c, a non-space character, so
      a stretch without backticks up to c holds no fence where the skip ends. */
  lemma NoFenceWithin(s: string, from: nat, c: nat)
    requires from <= c < |s| && !IsSpace(s[c])
    requires forall k | from <= k <= c :: s[k] != '`'
    ensures !FenceAt(s, SkipSpace(s, from))
  {
    var j := SkipSpace(s, from);
    assert j <= c;
    assert j + 3 <= |s| ==> s[j..j + 3][0] == s[j];
  }

  /** No closer inside the text ends a fenced match: what follows it is not a fence. */
  lemma FencedBlockNoEarlierEnd(t: string, c': nat)
    requires Bracketed(t) && c' < 7 + |t|
    ensures !FencedMatch(FencedBlock(t), 0, c')
  {
    var s := FencedBlock(t);
    var c := 7 + |t|;
    FencedBlockLayout(t);
    FencedBlockMatches(t);
    if 8 < c' {
      assert s[c] == t[|t| - 1];
      forall k | c' + 1 <= k <= c ensures s[k] != '`' {
        assert s[k] == t[k - 8];
      }
      NoFenceWithin(s, c' + 1, c);
    }
  }

  /** The fenced pattern extracts the whole bracketed text from such a block, even when
      the text holds closing brackets of its own. */
  lemma FencedBlockCandidate(t: string)
    requires Bracketed(t)
    ensures Candidate(FencedBlock(t)) == t
  {
    var s := FencedBlock(t);
    var c := 7 + |t|;
    FencedBlockLayout(t);
    FencedBlockMatches(t);
    forall c': nat | c' < c ensures !FencedMatch(s, 0, c') {
      FencedBlockNoEarlierEnd(t, c');
    }
    assert LeftmostFenced(s, 0, c);
    CandidateFenced(s, 0, c);
  }

  /** `parse_json_from_response`: the parsed candidate, or the original reply
      (unstripped) as a string when the candidate does not parse. */
  function ParseJsonFromResponse(response: string, loads: string -> Option<Json>): (r: Json)
    ensures loads(Candidate(response)).Some? ==> r == loads(Candidate(response)).value
    ensures loads(Candidate(response)).None? ==> r == JStr(response)
  {
    match loads(Candidate(response))
    case Some(v) => v
    case None => JStr(response)
  }

  /** A reply without a fence whose object nests another object: the lazy bare pattern
      stops at the inner closing brace, so the candidate is cut short, and a parser that
      rejects the cut text makes the whole reply come back as a string. */
  lemma NestedObjectIsTruncated(loads: string -> Option<Json>)
    requires loads("{\"a\":{\"b\":1}").None?
    ensures Candidate("{\"a\":{\"b\":1}}") == "{\"a\":{\"b\":1}"
    ensures ParseJsonFromResponse("{\"a\":{\"b\":1}}", loads) == JStr("{\"a\":{\"b\":1}}")
  {
    var s := "{\"a\":{\"b\":1}}";
    assert NoFencedMatch(s) by {
      forall p: nat, c: nat ensures !FencedMatch(s, p, c) {
        if FenceAt(s, p) {
          assert s[p] == s[p..p + 3][0];
        }
      }
    }
    assert LeftmostBare(s, 0, 11) by {
      forall c': nat | c' < 11 ensures !BareMatch(s, 0, c') {
        if 0 < c' < 11 {
          assert s[c'] != '}';
        }
      }
    }
    CandidateBare(s, 0, 11);
  }
}
