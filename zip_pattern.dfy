/** The regular expression `/\d{5}/` as the JavaScript engine runs it:
    `test` with the plain pattern and `String.prototype.match` with the
    global (`g`) pattern. Without the `u` flag `\d` is the ASCII digits only. */
module ZipPattern {

  datatype Option<T> = None | Some(value: T)

  predicate IsAsciiDigit(c: char) {
    '0' <= c <= '9'
  }

  /** `\d{5}` matches at index `i` of `s`. */
  predicate ZipAt(s: string, i: int) {
    && 0 <= i && i + 5 <= |s|
    && IsAsciiDigit(s[i]) && IsAsciiDigit(s[i + 1]) && IsAsciiDigit(s[i + 2])
    && IsAsciiDigit(s[i + 3]) && IsAsciiDigit(s[i + 4])
  }

  /** A string of exactly five ASCII digits. */
  predicate IsZip(z: string) {
    |z| == 5 && ZipAt(z, 0)
  }

  /** Some five consecutive ASCII digits occur in `s`. */
  ghost predicate ContainsZip(s: string) {
    exists i :: ZipAt(s, i)
  }

  /** No match starts at an index in [lo, hi). */
  ghost predicate NoZipIn(s: string, lo: int, hi: int) {
    forall j :: lo <= j < hi ==> !ZipAt(s, j)
  }

  /** The text of a match is a five-digit ZIP. */
  lemma ZipAtIsZip(s: string, i: int)
    requires ZipAt(s, i)
    ensures IsZip(s[i..i + 5])
  {
  }

  /** One step of the regex engine: the leftmost match at or after `from`
      (the search that `exec` starts at `lastIndex`). */
  function NextMatch(s: string, from: nat): (r: Option<nat>)
    decreases |s| - from
    ensures r.Some? ==> from <= r.value && ZipAt(s, r.value) && NoZipIn(s, from, r.value)
    ensures r.None? ==> NoZipIn(s, from, |s|)
  {
    if |s| < from + 5 then None
    else if ZipAt(s, from) then Some(from)
    else NextMatch(s, from + 1)
  }

  /** `pattern.test(s)` for the non-global pattern. */
  function Test(s: string): (b: bool)
    ensures b <==> ContainsZip(s)
  {
    NextMatch(s, 0).Some?
  }

  /** Where the greedy scan resumes before its k-th match: at `from` for the
      first one, and just past the previous match otherwise. */
  function ResumeAt(from: nat, ms: seq<nat>, k: nat): nat
    requires k <= |ms|
  {
    if k == 0 then from else ms[k - 1] + 5
  }

  /** Declarative meaning of a global match list starting at `from`: every
      entry is a match, each is the leftmost match at or after the point where
      the scan resumed, and no match starts after the last resumption point. */
  ghost predicate GreedyMatchList(s: string, from: nat, ms: seq<nat>) {
    && (forall k :: 0 <= k < |ms| ==> ZipAt(s, ms[k]))
    && (forall k {:trigger ResumeAt(from, ms, k)} :: 0 <= k < |ms| ==>
          ResumeAt(from, ms, k) <= ms[k] && NoZipIn(s, ResumeAt(from, ms, k), ms[k]))
    && NoZipIn(s, ResumeAt(from, ms, |ms|), |s|)
  }

  /** Every entry past the first resumes where the previous one ended. */
  lemma ResumeAtCons(from: nat, p: nat, rest: seq<nat>)
    ensures forall k | 1 <= k <= |rest| + 1 :: ResumeAt(from, [p] + rest, k) == ResumeAt(p + 5, rest, k - 1)
  {
  }

  /** A first match followed by a greedy list from just past it is greedy. */
  lemma {:induction false} GreedyMatchListCons(s: string, from: nat, p: nat, rest: seq<nat>)
    requires ZipAt(s, p) && from <= p && NoZipIn(s, from, p)
    requires GreedyMatchList(s, p + 5, rest)
    ensures GreedyMatchList(s, from, [p] + rest)
  {
    var ms := [p] + rest;
    ResumeAtCons(from, p, rest);
    forall k | 0 <= k < |ms|
      ensures ZipAt(s, ms[k]) && ResumeAt(from, ms, k) <= ms[k]
      ensures NoZipIn(s, ResumeAt(from, ms, k), ms[k])
    {
      if k > 0 {
        assert ms[k] == rest[k - 1];
        assert ResumeAt(p + 5, rest, k - 1) <= rest[k - 1];
      }
    }
    assert ResumeAt(from, ms, |ms|) == ResumeAt(p + 5, rest, |rest|);
  }

  /** Dropping the head of a list shifts its resumption points by one. */
  lemma ResumeAtTail(from: nat, ms: seq<nat>, k: nat)
    requires ms != [] && k < |ms|
    ensures ResumeAt(ms[0] + 5, ms[1..], k) == ResumeAt(from, ms, k + 1)
  {
    if k > 0 { assert ms[1..][k - 1] == ms[k]; }
  }

  /** The tail of a greedy list is a greedy list from just past its head. */
  lemma {:induction false} GreedyMatchListTail(s: string, from: nat, ms: seq<nat>)
    requires GreedyMatchList(s, from, ms) && ms != []
    ensures ZipAt(s, ms[0]) && from <= ms[0] && NoZipIn(s, from, ms[0])
    ensures GreedyMatchList(s, ms[0] + 5, ms[1..])
  {
    var rest := ms[1..];
    assert ResumeAt(from, ms, 0) == from;
    forall k | 0 <= k < |rest|
      ensures ZipAt(s, rest[k]) && ResumeAt(ms[0] + 5, rest, k) <= rest[k]
      ensures NoZipIn(s, ResumeAt(ms[0] + 5, rest, k), rest[k])
    {
      assert rest[k] == ms[k + 1];
      ResumeAtTail(from, ms, k);
    }
    ResumeAtTail(from, ms, |rest|);
  }

  /** The start indices of the matches that a global scan finds from `from`:
      left to right, without overlap, resuming five characters after each match. */
  function MatchStarts(s: string, from: nat): (ms: seq<nat>)
    decreases |s| - from
    ensures forall k :: 0 <= k < |ms| ==> ZipAt(s, ms[k])
    ensures ms == [] <==> NextMatch(s, from).None?
  {
    match NextMatch(s, from)
    case None => []
    case Some(p) => [p] + MatchStarts(s, p + 5)
  }

  /** The list the global scan produces meets the greedy description. */
  lemma {:induction false} MatchStartsIsGreedy(s: string, from: nat)
    ensures GreedyMatchList(s, from, MatchStarts(s, from))
    decreases |s| - from
  {
    match NextMatch(s, from)
    case None =>
      assert ResumeAt(from, [], 0) == from;
    case Some(p) =>
      MatchStartsIsGreedy(s, p + 5);
      GreedyMatchListCons(s, from, p, MatchStarts(s, p + 5));
  }

  /** The search finds the match that no earlier index after `from` has. */
  lemma NextMatchIsLeftmost(s: string, from: nat, q: nat)
    requires ZipAt(s, q) && from <= q && NoZipIn(s, from, q)
    ensures NextMatch(s, from) == Some(q)
  {
  }

  /** The search finds nothing where no match starts. */
  lemma NextMatchFindsNothing(s: string, from: nat)
    requires NoZipIn(s, from, |s|)
    ensures NextMatch(s, from) == None
  {
  }

  /** The greedy match list is determined by the string: any list meeting the
      declarative description is the one the scan produces. */
  lemma {:induction false} GreedyMatchListUnique(s: string, from: nat, ms: seq<nat>)
    requires GreedyMatchList(s, from, ms)
    ensures ms == MatchStarts(s, from)
    decreases |s| - from
  {
    if ms == [] {
      assert ResumeAt(from, ms, 0) == from;
      NextMatchFindsNothing(s, from);
    } else {
      var p, rest := ms[0], ms[1..];
      GreedyMatchListTail(s, from, ms);
      NextMatchIsLeftmost(s, from, p);
      GreedyMatchListUnique(s, p + 5, rest);
    }
  }

  /** `s.match(/\d{5}/g)`: null (`None`) when nothing matches, otherwise the
      matched texts in the order found. */
  function MatchAll(s: string): (r: Option<seq<string>>)
    ensures r.None? <==> !ContainsZip(s)
    ensures r.Some? ==> |r.value| == |MatchStarts(s, 0)| > 0
    ensures r.Some? ==> forall k :: 0 <= k < |r.value| ==>
      ZipAt(s, MatchStarts(s, 0)[k]) && r.value[k] == s[MatchStarts(s, 0)[k]..MatchStarts(s, 0)[k] + 5]
  {
    var ms := MatchStarts(s, 0);
    assert Test(s) <==> ms != [];
    if ms == [] then None
    else Some(seq(|ms|, k requires 0 <= k < |ms| => s[ms[k]..ms[k] + 5]))
  }
}
