/** `_select_model_input`: as much evidence as fits, and a payload that states its own encoded length. */
module ModelInput {
  import opened Wrappers
  import Decimal

  // ---- Decimal digits ----

  function Digits(n: nat): (d: nat)
    ensures d >= 1
  {
    if n < 10 then 1 else 1 + Digits(n / 10)
  }

  function Pow10(k: nat): (p: nat)
    ensures p > k
  {
    if k == 0 then 1 else 10 * Pow10(k - 1)
  }

  lemma {:induction false} DigitsBound(n: nat, k: nat)
    requires k > 0
    ensures Digits(n) <= k <==> n < Pow10(k)
  {
    if n >= 10 && k > 1 { DigitsBound(n / 10, k - 1); }
    if k == 1 { assert Pow10(1) == 10 * Pow10(0); }
    if n < 10 && k > 1 { assert Pow10(k - 1) > 0; }
  }

  lemma DigitsGrow(n: nat, m: nat)
    requires n <= m
    ensures Digits(n) <= Digits(m)
  {
    DigitsBound(m, Digits(m));
    DigitsBound(n, Digits(m));
  }

  /** Adding fewer than `Digits(n)` makes the number at most one digit longer. */
  lemma DigitsStep(n: nat, k: nat)
    requires k < Digits(n)
    ensures Digits(n) <= Digits(n + k) <= Digits(n) + 1
  {
    DigitsGrow(n, n + k);
    var d := Digits(n);
    DigitsBound(n, d);
    DigitsBound(n + k, d + 1);
    assert Pow10(d + 1) == 10 * Pow10(d);
  }

  // ---- The self-describing count ----

  /** One round: the length of the payload when it states the count `x`; `rest` is everything else in it. */
  function Round(rest: nat, x: nat): nat {
    rest + Digits(x)
  }

  function Rounds(rest: nat, n: nat): nat {
    if n == 0 then 0 else Round(rest, Rounds(rest, n - 1))
  }

  /** From the second round on the count is off by at most one digit; from the third on it is right. */
  lemma ThirdRound(rest: nat, k: nat, l: nat)
    requires k == Digits(rest + 1) && l == Digits(rest + k)
    ensures Digits(rest + l) == l
  {
    DigitsStep(rest + 1, k - 1);
    assert rest + 1 + (k - 1) == rest + k;
    if l == k + 1 {
      DigitsGrow(rest + k, rest + l);
      DigitsBound(rest + 1, k);
      DigitsBound(rest + l, k + 1);
      assert Pow10(k + 1) == 10 * Pow10(k);
    }
  }

  /** Four rounds from zero always reach the fixed point: the stated count is the length. */
  lemma FourRoundsReachFixedPoint(rest: nat)
    ensures Round(rest, Rounds(rest, 4)) == Rounds(rest, 4)
    ensures forall x: nat :: Round(rest, x) == x ==> Rounds(rest, 4) <= x
  {
    assert Rounds(rest, 1) == rest + 1;
    var k := Digits(rest + 1);
    assert Rounds(rest, 2) == rest + k;
    var l := Digits(rest + k);
    assert Rounds(rest, 3) == rest + l;
    ThirdRound(rest, k, l);
    assert Rounds(rest, 4) == rest + l;
    forall x: nat | Round(rest, x) == x ensures Rounds(rest, 4) <= x {
      DigitsGrow(rest + 1, x);
      DigitsGrow(rest + k, x);
    }
  }

  // ---- The payload ----

  /** `sizes` are the encoded lengths of the selected evidence items; `fixed` that of everything that does not vary. */
  datatype Payload = Payload(fixed: nat, sizes: seq<nat>, selected: nat, truncated: bool, inputBytes: nat)

  function TotalSize(sizes: seq<nat>, n: nat): nat
    requires n <= |sizes|
  {
    if n == 0 then 0 else TotalSize(sizes, n - 1) + sizes[n - 1]
  }

  /** What the counter does not describe itself: context, items with commas between them, the other metadata. */
  function RestLength(p: Payload): nat {
    p.fixed + TotalSize(p.sizes, |p.sizes|) + (if |p.sizes| > 0 then |p.sizes| - 1 else 0)
    + Digits(p.selected) + if p.truncated then 4 else 5
  }

  /** The length of `encode()`. */
  function EncodedLength(p: Payload): nat {
    Round(RestLength(p), p.inputBytes)
  }

  /** The payload with the first `n` candidates, before its length is filled in. */
  function Draft(fixed: nat, candidates: seq<nat>, n: nat): Payload
    requires n <= |candidates|
  {
    Payload(fixed, candidates[..n], n, n < |candidates|, 0)
  }

  lemma {:induction false} TotalOfTaken(candidates: seq<nat>, m: nat, n: nat)
    requires n <= m <= |candidates|
    ensures TotalSize(candidates[..m], n) == TotalSize(candidates, n)
  {
    if n > 0 { TotalOfTaken(candidates, m, n - 1); }
  }

  /** One more item makes the draft longer. */
  lemma DraftsGrow(fixed: nat, candidates: seq<nat>, n: nat)
    requires n < |candidates|
    ensures EncodedLength(Draft(fixed, candidates, n)) + candidates[n] <= EncodedLength(Draft(fixed, candidates, n + 1))
  {
    TotalOfTaken(candidates, n, n);
    TotalOfTaken(candidates, n + 1, n + 1);
    DigitsGrow(n, n + 1);
  }

  lemma {:induction false} LongerDraftsAreLonger(fixed: nat, candidates: seq<nat>, n: nat, m: nat)
    requires n <= m <= |candidates|
    ensures EncodedLength(Draft(fixed, candidates, n)) <= EncodedLength(Draft(fixed, candidates, m))
    decreases m
  {
    if n < m {
      LongerDraftsAreLonger(fixed, candidates, n, m - 1);
      DraftsGrow(fixed, candidates, m - 1);
    }
  }

  // ---- Candidates ----

  /** An evidence item: the ranks of its role and id, its encoded length, and whether it can be cited at all. */
  datatype Evidence = Evidence(role: nat, id: nat, size: nat, citable: bool)

  /** Sorted by role, then by id. */
  predicate NotAfter(a: Evidence, b: Evidence) {
    a.role < b.role || (a.role == b.role && a.id <= b.id)
  }

  /** Behind everything that is not after it, so that equal items keep their order. */
  function InsertItem(sorted: seq<Evidence>, e: Evidence): seq<Evidence> {
    if sorted == [] || NotAfter(sorted[|sorted| - 1], e) then sorted + [e]
    else InsertItem(sorted[..|sorted| - 1], e) + [sorted[|sorted| - 1]]
  }

  function Candidates(evidence: seq<Evidence>, n: nat): seq<Evidence>
    requires n <= |evidence|
  {
    if n == 0 then []
    else if evidence[n - 1].citable then InsertItem(Candidates(evidence, n - 1), evidence[n - 1])
    else Candidates(evidence, n - 1)
  }

  function Citable(evidence: seq<Evidence>, n: nat): multiset<Evidence>
    requires n <= |evidence|
  {
    if n == 0 then multiset{}
    else Citable(evidence, n - 1) + if evidence[n - 1].citable then multiset{evidence[n - 1]} else multiset{}
  }

  ghost predicate InOrder(items: seq<Evidence>) {
    forall i, j :: 0 <= i < j < |items| ==> NotAfter(items[i], items[j])
  }

  /** An element of a sequence that rearranges `front` and `e` is one of them. */
  lemma OneOf(inserted: seq<Evidence>, front: seq<Evidence>, e: Evidence, i: nat)
    requires multiset(inserted) == multiset(front) + multiset{e} && i < |inserted|
    ensures inserted[i] == e || inserted[i] in front
  {
    assert inserted[i] in multiset(inserted);
  }

  lemma LastStaysLast(front: seq<Evidence>, last: Evidence, inserted: seq<Evidence>, e: Evidence)
    requires InOrder(front + [last]) && InOrder(inserted) && NotAfter(e, last)
    requires multiset(inserted) == multiset(front) + multiset{e}
    ensures InOrder(inserted + [last])
  {
    forall i | 0 <= i < |inserted| ensures NotAfter(inserted[i], last) {
      OneOf(inserted, front, e, i);
      if inserted[i] != e {
        var j :| 0 <= j < |front| && front[j] == inserted[i];
        assert NotAfter((front + [last])[j], (front + [last])[|front|]);
      }
    }
  }

  lemma {:induction false} InsertKeepsOrder(sorted: seq<Evidence>, e: Evidence)
    requires InOrder(sorted)
    ensures InOrder(InsertItem(sorted, e)) && multiset(InsertItem(sorted, e)) == multiset(sorted) + multiset{e}
  {
    if sorted != [] && !NotAfter(sorted[|sorted| - 1], e) {
      var front, last := sorted[..|sorted| - 1], sorted[|sorted| - 1];
      assert sorted == front + [last];
      InsertKeepsOrder(front, e);
      LastStaysLast(front, last, InsertItem(front, e), e);
    }
  }

  /** The candidates are exactly the citable items, each as often as it occurs, in order. */
  lemma {:induction false} CandidatesAreSorted(evidence: seq<Evidence>, n: nat)
    requires n <= |evidence|
    ensures InOrder(Candidates(evidence, n)) && multiset(Candidates(evidence, n)) == Citable(evidence, n)
  {
    if n > 0 {
      CandidatesAreSorted(evidence, n - 1);
      if evidence[n - 1].citable { InsertKeepsOrder(Candidates(evidence, n - 1), evidence[n - 1]); }
    }
  }

  function Sizes(items: seq<Evidence>): seq<nat> {
    seq(|items|, i requires 0 <= i < |items| => items[i].size)
  }

  method SortCandidates(evidence: seq<Evidence>) returns (sizes: seq<nat>)
    ensures sizes == Sizes(Candidates(evidence, |evidence|))
  {
    var items: seq<Evidence> := [];
    for i := 0 to |evidence|
      invariant items == Candidates(evidence, i)
    {
      if evidence[i].citable {
        items := InsertItem(items, evidence[i]);
      }
    }
    sizes := Sizes(items);
  }

  // ---- Selection ----

  datatype Failure = CapNotPositive | CapTooSmall | MetadataExceedsCap

  /** The context alone, as it is first encoded: nothing selected and not marked as truncated. */
  function Context(fixed: nat): Payload {
    Payload(fixed, [], 0, false, 0)
  }

  /** `n` candidates are the longest prefix whose draft fits; with none selected the context was seen to fit. */
  ghost predicate LongestPrefix(fixed: nat, candidates: seq<nat>, cap: int, n: nat) {
    && n <= |candidates| && (n == 0 || EncodedLength(Draft(fixed, candidates, n)) <= cap)
    && forall m :: n < m <= |candidates| ==> EncodedLength(Draft(fixed, candidates, m)) > cap
  }

  /** The draft with its own length filled in. */
  function Described(p: Payload): Payload {
    p.(inputBytes := Rounds(RestLength(p), 4))
  }

  /** The greedy loop: append candidates until one does not fit. */
  method Choose(fixed: nat, candidates: seq<nat>, cap: int) returns (payload: Payload, ghost n: nat)
    ensures LongestPrefix(fixed, candidates, cap, n) && payload == Draft(fixed, candidates, n)
  {
    payload := Context(fixed);
    var taken := 0;
    var trying := true;
    while trying && taken < |candidates|
      invariant taken <= |candidates| && payload.fixed == fixed && payload.sizes == candidates[..taken]
      invariant payload.selected == taken && payload.inputBytes == 0
      invariant taken == 0 || EncodedLength(Draft(fixed, candidates, taken)) <= cap
      invariant !trying ==> taken < |candidates| && EncodedLength(Draft(fixed, candidates, taken + 1)) > cap
      decreases trying, |candidates| - taken
    {
      var next := payload.(sizes := payload.sizes + [candidates[taken]], selected := taken + 1);
      next := next.(truncated := next.selected < |candidates|);
      assert next == Draft(fixed, candidates, taken + 1);
      if EncodedLength(next) > cap {
        payload := payload.(truncated := true);
        trying := false;
      } else {
        payload := next;
        taken := taken + 1;
      }
    }
    payload := payload.(truncated := taken < |candidates|);
    n := taken;
    forall m | n < m <= |candidates| ensures EncodedLength(Draft(fixed, candidates, m)) > cap {
      LongerDraftsAreLonger(fixed, candidates, n + 1, m);
    }
  }

  /** Four rounds of writing the length into the payload. */
  method Describe(draft: Payload) returns (payload: Payload)
    requires draft.inputBytes == 0
    ensures payload == Described(draft) && payload.inputBytes == EncodedLength(payload)
  {
    payload := draft;
    for i := 0 to 4
      invariant payload == draft.(inputBytes := Rounds(RestLength(draft), i))
    {
      payload := payload.(inputBytes := EncodedLength(payload));
    }
    FourRoundsReachFixedPoint(RestLength(draft));
  }

  /**
   A returned payload states its own length, which is within the cap, and holds the longest prefix of the
   sorted candidates that fits. The last error occurs exactly when that prefix fits only without its own length.
   */
  method SelectModelInput(fixed: nat, evidence: seq<Evidence>, cap: int) returns (r: Result<Payload, Failure>)
    ensures r == Err(CapNotPositive) <==> cap <= 0
    ensures r == Err(CapTooSmall) <==> cap > 0 && EncodedLength(Context(fixed)) > cap
    ensures r.Ok? || r == Err(MetadataExceedsCap) ==> exists n ::
      var candidates := Sizes(Candidates(evidence, |evidence|));
      && LongestPrefix(fixed, candidates, cap, n)
      && r == (var d := Described(Draft(fixed, candidates, n));
               if EncodedLength(d) <= cap then Ok(d) else Err(MetadataExceedsCap))
    ensures r.Ok? ==> r.value.inputBytes == EncodedLength(r.value) <= cap
  {
    if cap <= 0 {
      return Err(CapNotPositive);
    }
    var candidates := SortCandidates(evidence);
    if EncodedLength(Context(fixed)) > cap {
      return Err(CapTooSmall);
    }
    var draft, n := Choose(fixed, candidates, cap);
    var payload := Describe(draft);
    if EncodedLength(payload) > cap {
      return Err(MetadataExceedsCap);
    }
    payload := payload.(inputBytes := EncodedLength(payload));
    r := Ok(payload);
  }

  lemma {:induction false} RoundsGrow(less: nat, more: nat, k: nat)
    requires less <= more
    ensures Rounds(less, k) <= Rounds(more, k)
  {
    if k > 0 {
      RoundsGrow(less, more, k - 1);
      DigitsGrow(Rounds(less, k - 1), Rounds(more, k - 1));
    }
  }

  /** With its own length filled in, a longer selection is still no shorter. */
  lemma DescribedGrow(fixed: nat, candidates: seq<nat>, n: nat, m: nat)
    requires n <= m <= |candidates|
    ensures EncodedLength(Described(Draft(fixed, candidates, n)))
         <= EncodedLength(Described(Draft(fixed, candidates, m)))
  {
    LongerDraftsAreLonger(fixed, candidates, n, m);
    var less, more := RestLength(Draft(fixed, candidates, n)), RestLength(Draft(fixed, candidates, m));
    RoundsGrow(less, more, 4);
    DigitsGrow(Rounds(less, 4), Rounds(more, 4));
  }

  /** The selection ends in the last error. */
  ghost predicate Fails(fixed: nat, candidates: seq<nat>, cap: int, n: nat) {
    LongestPrefix(fixed, candidates, cap, n) && EncodedLength(Described(Draft(fixed, candidates, n))) > cap
  }

  /** The last error although a shorter selection would fit occurs exactly when the context with its length fits. */
  lemma ShorterFitsExactly(fixed: nat, candidates: seq<nat>, cap: int, n: nat)
    requires Fails(fixed, candidates, cap, n)
    ensures (exists m :: 0 <= m < n && EncodedLength(Described(Draft(fixed, candidates, m))) <= cap) <==>
      EncodedLength(Described(Draft(fixed, candidates, 0))) <= cap
  {
    forall m | 0 <= m < n ensures
      EncodedLength(Described(Draft(fixed, candidates, 0))) <= EncodedLength(Described(Draft(fixed, candidates, m)))
    {
      DescribedGrow(fixed, candidates, 0, m);
    }
  }

  lemma DescribedWithThreeDigits(p: Payload)
    requires 99 <= RestLength(p) < 997
    ensures EncodedLength(Described(p)) == RestLength(p) + 3
  {
    var rest := RestLength(p);
    var x := Rounds(rest, 4);
    FourRoundsReachFixedPoint(rest);
    ThreeDigits(rest + 3);
    assert Round(rest, rest + 3) == rest + 3;
    ThreeDigits(x);
  }

  lemma {:induction false} ThreeDigits(n: nat)
    requires 100 <= n < 1000
    ensures Digits(n) == 3
  {
    assert Digits(n / 10) == 1 + Digits(n / 10 / 10);
  }

  /**
   The last error can occur although leaving out one more item would have helped: 189 bytes of context, which is
   what the metadata alone take, one item of 19 bytes, and a cap of 208.
   */
  lemma DroppingOneWouldHelp(candidates: seq<nat>)
    requires candidates == [19]
    ensures EncodedLength(Context(182)) == 189 && Fails(182, candidates, 208, 1)
    ensures EncodedLength(Described(Draft(182, candidates, 1))) == 210
    ensures EncodedLength(Described(Draft(182, candidates, 0))) == 190
  {
    var one, none := Draft(182, candidates, 1), Draft(182, candidates, 0);
    TotalOfOne(one.sizes, 19);
    assert RestLength(one) == 207 && RestLength(none) == 187;
    DescribedWithThreeDigits(one);
    DescribedWithThreeDigits(none);
  }

  lemma TotalOfOne(sizes: seq<nat>, size: nat)
    requires sizes == [size]
    ensures TotalSize(sizes, |sizes|) == size
  {
    assert TotalSize(sizes, 1) == TotalSize(sizes, 0) + sizes[0];
  }

  // ---- The text itself ----

  /** What stands around the varying values: before the items, before each number, and at the end. */
  datatype Frame = Frame(front: string, selected: string, truncated: string, inputBytes: string, back: string)

  /** The first `n` items with commas between them. */
  function ItemTexts(items: seq<string>, n: nat): string
    requires n <= |items|
  {
    if n == 0 then "" else if n == 1 then items[0] else ItemTexts(items, n - 1) + "," + items[n - 1]
  }

  /** The encoded JSON with compact separators: the items in a list, then the metadata. */
  function Text(f: Frame, items: seq<string>, selected: nat, truncated: bool, inputBytes: nat): string {
    f.front + "[" + ItemTexts(items, |items|) + "]" + f.selected + Decimal.ToString(selected)
    + f.truncated + (if truncated then "true" else "false") + f.inputBytes + Decimal.ToString(inputBytes) + f.back
  }

  function FixedLength(f: Frame): nat {
    |f.front| + |f.selected| + |f.truncated| + |f.inputBytes| + |f.back| + 2
  }

  function Lengths(items: seq<string>): seq<nat> {
    seq(|items|, i requires 0 <= i < |items| => |items[i]|)
  }

  lemma {:induction false} LengthOfItems(items: seq<string>, n: nat)
    requires n <= |items|
    ensures |ItemTexts(items, n)| == TotalSize(Lengths(items), n) + if n > 0 then n - 1 else 0
  {
    if n > 1 { LengthOfItems(items, n - 1); }
    if n == 1 { assert TotalSize(Lengths(items), 1) == TotalSize(Lengths(items), 0) + |items[0]|; }
  }

  lemma {:induction false} DigitsAreWritten(n: nat)
    ensures |Decimal.ToString(n)| == Digits(n)
  {
    if n >= 10 { DigitsAreWritten(n / 10); }
  }

  /** The encoded length is the length of that text, whatever its items and frame are. */
  lemma EncodedLengthIsLength(f: Frame, items: seq<string>, selected: nat, truncated: bool, inputBytes: nat)
    ensures |Text(f, items, selected, truncated, inputBytes)|
         == EncodedLength(Payload(FixedLength(f), Lengths(items), selected, truncated, inputBytes))
  {
    LengthOfItems(items, |items|);
    DigitsAreWritten(selected);
    DigitsAreWritten(inputBytes);
  }

  /** Sorted by role, and within a role by id. */
  lemma InOrderExactly(items: seq<Evidence>)
    ensures InOrder(items) <==> forall i, j :: 0 <= i < j < |items| ==>
      items[i].role <= items[j].role && (items[i].role == items[j].role ==> items[i].id <= items[j].id)
  {
    if InOrder(items) {
      forall i, j | 0 <= i < j < |items|
        ensures items[i].role <= items[j].role && (items[i].role == items[j].role ==> items[i].id <= items[j].id)
      {
        assert NotAfter(items[i], items[j]);
      }
    }
  }
}
