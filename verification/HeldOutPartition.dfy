/** Held-out evaluation partitions: class-wise apportionment and the repair of empty clients. */
module HeldOutPartition {
  import opened RealMath
  import opened SortedInts
  import opened Apportionment

  /** The samples of every client. */
  type Lists = seq<seq<nat>>

  type Labels = nat -> int

  // ----- bags of samples -----

  function Bag(lists: Lists): multiset<nat> {
    if lists == [] then multiset{} else multiset(lists[0]) + Bag(lists[1..])
  }

  function Size(lists: Lists): nat {
    if lists == [] then 0 else |lists[0]| + Size(lists[1..])
  }

  lemma {:induction false} BagSize(lists: Lists)
    ensures |Bag(lists)| == Size(lists)
  {
    if lists != [] { BagSize(lists[1..]); }
  }

  lemma {:induction false} BagUpdate(lists: Lists, i: nat, s: seq<nat>)
    requires i < |lists|
    ensures Bag(lists[i := s]) + multiset(lists[i]) == Bag(lists) + multiset(s)
    ensures Size(lists[i := s]) + |lists[i]| == Size(lists) + |s|
  {
    if i == 0 {
      assert lists[0 := s][1..] == lists[1..];
    } else {
      assert lists[i := s][1..] == lists[1..][i - 1 := s];
      BagUpdate(lists[1..], i - 1, s);
      Regroup(multiset(lists[0]), Bag(lists[1..][i - 1 := s]), multiset(lists[i]), Bag(lists[1..]), multiset(s));
    }
  }

  lemma Regroup(first: multiset<nat>, a: multiset<nat>, b: multiset<nat>, c: multiset<nat>, d: multiset<nat>)
    requires a + b == c + d
    ensures (first + a) + b == (first + c) + d
  {
    assert (first + a) + b == first + (a + b) && (first + c) + d == first + (c + d);
  }

  // ----- moving one sample -----

  function Without(s: seq<nat>, position: nat): (r: seq<nat>)
    requires position < |s|
    ensures |r| == |s| - 1
  {
    s[..position] + s[position + 1..]
  }

  /** donor.pop(position), appended to the client. */
  function Moved(lists: Lists, donor: nat, position: nat, client: nat): (r: Lists)
    requires donor < |lists| && client < |lists| && donor != client && position < |lists[donor]|
    ensures |r| == |lists|
  {
    lists[donor := Without(lists[donor], position)][client := lists[client] + [lists[donor][position]]]
  }

  lemma MovedKeepsBag(lists: Lists, donor: nat, position: nat, client: nat)
    requires donor < |lists| && client < |lists| && donor != client && position < |lists[donor]|
    ensures Bag(Moved(lists, donor, position, client)) == Bag(lists)
    ensures Size(Moved(lists, donor, position, client)) == Size(lists)
  {
    var s, x := lists[donor], lists[donor][position];
    WithoutBag(s, position);
    BagUpdate(lists, donor, Without(s, position));
    BagUpdate(lists[donor := Without(s, position)], client, lists[client] + [x]);
    CancelMoved(Bag(lists), Bag(lists[donor := Without(s, position)]), Bag(Moved(lists, donor, position, client)),
                multiset(s), multiset(Without(s, position)), multiset(lists[client]), multiset(lists[client] + [x]), x);
  }

  lemma WithoutBag(s: seq<nat>, position: nat)
    requires position < |s|
    ensures multiset(s) == multiset(Without(s, position)) + multiset{s[position]}
  {
    assert s == s[..position] + [s[position]] + s[position + 1..];
  }

  lemma CancelMoved(b0: multiset<nat>, b1: multiset<nat>, b2: multiset<nat>, s: multiset<nat>, w: multiset<nat>,
                    c: multiset<nat>, d: multiset<nat>, x: nat)
    requires s == w + multiset{x} && d == c + multiset{x} && b1 + s == b0 + w && b2 + c == b1 + d
    ensures b2 == b0
  {
    forall y ensures b2[y] == b0[y] {
      assert (b1 + s)[y] == (b0 + w)[y] && (b2 + c)[y] == (b1 + d)[y];
    }
  }

  // ----- choosing a donor -----

  function ClassCount(s: seq<nat>, classOf: Labels, c: int): nat {
    if s == [] then 0 else (if classOf(s[0]) == c then 1 else 0) + ClassCount(s[1..], classOf, c)
  }

  /** The position of the first sample of a class. */
  function FirstOf(s: seq<nat>, classOf: Labels, c: int): (position: nat)
    requires ClassCount(s, classOf, c) > 0
    ensures position < |s| && classOf(s[position]) == c && forall k :: 0 <= k < position ==> classOf(s[k]) != c
  {
    if classOf(s[0]) == c then 0 else 1 + FirstOf(s[1..], classOf, c)
  }

  /** Another client that can spare a sample of the class. */
  predicate CanGive(lists: Lists, classOf: Labels, client: nat, c: int, donor: nat)
    requires donor < |lists|
  {
    donor != client && |lists[donor]| > 1 && ClassCount(lists[donor], classOf, c) > 0
  }

  predicate CanSpare(lists: Lists, client: nat, donor: nat)
    requires donor < |lists|
  {
    donor != client && |lists[donor]| > 1
  }

  /** Comparing (class count, size, id) as tuples. */
  predicate GivesNoMore(lists: Lists, classOf: Labels, c: int, a: nat, b: nat)
    requires a < |lists| && b < |lists|
  {
    var m, n := ClassCount(lists[a], classOf, c), ClassCount(lists[b], classOf, c);
    m < n || (m == n && (|lists[a]| < |lists[b]| || (|lists[a]| == |lists[b]| && a <= b)))
  }

  predicate SparesNoMore(lists: Lists, a: nat, b: nat)
    requires a < |lists| && b < |lists|
  {
    |lists[a]| < |lists[b]| || (|lists[a]| == |lists[b]| && a <= b)
  }

  /** The greatest of the first n donors for a class. */
  function BestDonor(lists: Lists, classOf: Labels, client: nat, c: int, n: nat): (best: Option<nat>)
    requires n <= |lists|
    ensures best.Some? ==> best.value < n && CanGive(lists, classOf, client, c, best.value)
  {
    if n == 0 then None
    else
      var best, d := BestDonor(lists, classOf, client, c, n - 1), n - 1;
      if !CanGive(lists, classOf, client, c, d) then best
      else if best.None? || GivesNoMore(lists, classOf, c, best.value, d) then Some(d)
      else best
  }

  lemma {:induction false} BestDonorIsBest(lists: Lists, classOf: Labels, client: nat, c: int, n: nat)
    requires n <= |lists|
    ensures var best := BestDonor(lists, classOf, client, c, n);
      && (best.None? <==> forall d :: 0 <= d < n ==> !CanGive(lists, classOf, client, c, d))
      && (best.Some? ==> forall d :: 0 <= d < n && CanGive(lists, classOf, client, c, d) ==>
            GivesNoMore(lists, classOf, c, d, best.value))
  {
    if n > 0 { BestDonorIsBest(lists, classOf, client, c, n - 1); }
  }

  /** The greatest of the first n donors regardless of class. */
  function LargestDonor(lists: Lists, client: nat, n: nat): (best: Option<nat>)
    requires n <= |lists|
    ensures best.Some? ==> best.value < n && CanSpare(lists, client, best.value)
  {
    if n == 0 then None
    else
      var best, d := LargestDonor(lists, client, n - 1), n - 1;
      if !CanSpare(lists, client, d) then best
      else if best.None? || SparesNoMore(lists, best.value, d) then Some(d)
      else best
  }

  lemma {:induction false} LargestDonorIsLargest(lists: Lists, client: nat, n: nat)
    requires n <= |lists|
    ensures var best := LargestDonor(lists, client, n);
      && (best.None? <==> forall d :: 0 <= d < n ==> !CanSpare(lists, client, d))
      && (best.Some? ==> forall d :: 0 <= d < n && CanSpare(lists, client, d) ==> SparesNoMore(lists, d, best.value))
  {
    if n > 0 { LargestDonorIsLargest(lists, client, n - 1); }
  }

  // ----- the client's preferred classes -----

  function CountOf(labels: seq<int>, c: int): nat {
    if labels == [] then 0 else (if labels[0] == c then 1 else 0) + CountOf(labels[1..], c)
  }

  function InsertByCount(c: int, order: seq<int>, labels: seq<int>): (r: seq<int>)
    ensures forall x :: x in r <==> x == c || x in order
    ensures |r| == |order| + 1
  {
    if order == [] || CountOf(labels, order[0]) <= CountOf(labels, c) then [c] + order
    else
      assert order == [order[0]] + order[1..];
      [order[0]] + InsertByCount(c, order[1..], labels)
  }

  function ByCount(distinct: seq<int>, labels: seq<int>): (r: seq<int>)
    ensures forall x :: x in r <==> x in distinct
    ensures |r| == |distinct|
  {
    if distinct == [] then [] else
      assert distinct == [distinct[0]] + distinct[1..];
      InsertByCount(distinct[0], ByCount(distinct[1..], labels), labels)
  }

  /** The classes of a client's training data, most frequent first, then by label. */
  function Preferred(labels: seq<int>): (r: seq<int>)
    ensures forall x :: x in r <==> x in labels
  {
    ByCount(SortedDistinct(labels), labels)
  }

  /** The more frequent class comes first, and of equally frequent ones the smaller label. */
  predicate Before(labels: seq<int>, a: int, b: int) {
    CountOf(labels, a) > CountOf(labels, b) || (CountOf(labels, a) == CountOf(labels, b) && a < b)
  }

  ghost predicate Ranked(labels: seq<int>, r: seq<int>) {
    forall i, j :: 0 <= i < j < |r| ==> Before(labels, r[i], r[j])
  }

  lemma {:induction false} InsertKeepsOrder(c: int, order: seq<int>, labels: seq<int>)
    requires Ranked(labels, order) && forall i :: 0 <= i < |order| ==> c < order[i]
    ensures Ranked(labels, InsertByCount(c, order, labels))
  {
    if order != [] && CountOf(labels, order[0]) > CountOf(labels, c) {
      InsertKeepsOrder(c, order[1..], labels);
      var rest := InsertByCount(c, order[1..], labels);
      forall j | 0 <= j < |rest| ensures Before(labels, order[0], rest[j]) {
        assert rest[j] in rest;
        if rest[j] != c { var i :| 0 <= i < |order[1..]| && order[1..][i] == rest[j]; }
      }
    } else if order != [] {
      forall j | 0 <= j < |order| ensures Before(labels, c, order[j]) {
        assert j > 0 ==> Before(labels, order[0], order[j]);
      }
    }
  }

  lemma {:induction false} PreferredOrder(distinct: seq<int>, labels: seq<int>)
    requires Increasing(distinct)
    ensures Ranked(labels, ByCount(distinct, labels))
  {
    if distinct != [] {
      var tail := distinct[1..];
      PreferredOrder(tail, labels);
      var order := ByCount(tail, labels);
      forall k | 0 <= k < |order| ensures distinct[0] < order[k] {
        assert order[k] in order;
        var i :| 0 <= i < |tail| && tail[i] == order[k];
        assert distinct[i + 1] == order[k];
      }
      InsertKeepsOrder(distinct[0], order, labels);
    }
  }

  // ----- repairing one client -----

  /** The first preferred class that some donor can give, with its best donor. */
  function FirstClass(lists: Lists, classOf: Labels, client: nat, preferred: seq<int>): (r: Option<(int, nat)>)
    ensures r.Some? ==> r.value.0 in preferred && r.value.1 < |lists|
                        && CanGive(lists, classOf, client, r.value.0, r.value.1)
    decreases |preferred|
  {
    if preferred == [] then None
    else
      var donor := BestDonor(lists, classOf, client, preferred[0], |lists|);
      if donor.Some? then Some((preferred[0], donor.value)) else FirstClass(lists, classOf, client, preferred[1..])
  }

  /** One sample for an empty client; None when no donor is left. */
  function Repaired(lists: Lists, classOf: Labels, client: nat, preferred: seq<int>): (r: Option<Lists>)
    requires client < |lists|
    ensures r.Some? ==> |r.value| == |lists|
  {
    var first := FirstClass(lists, classOf, client, preferred);
    if first.Some? then
      var (c, donor) := first.value;
      Some(Moved(lists, donor, FirstOf(lists[donor], classOf, c), client))
    else
      var donor := LargestDonor(lists, client, |lists|);
      if donor.None? then None else Some(Moved(lists, donor.value, |lists[donor.value]| - 1, client))
  }

  function RepairAll(lists: Lists, classOf: Labels, empty: seq<nat>, trainLabels: seq<seq<int>>): Option<Lists>
    requires |trainLabels| == |lists| && forall i :: 0 <= i < |empty| ==> empty[i] < |lists|
    decreases |empty|
  {
    if empty == [] then Some(lists)
    else
      var next := Repaired(lists, classOf, empty[0], Preferred(trainLabels[empty[0]]));
      if next.None? then None else RepairAll(next.value, classOf, empty[1..], trainLabels)
  }

  /** The empty clients in increasing order. */
  function EmptyClients(lists: Lists, n: nat): (empty: seq<nat>)
    requires n <= |lists|
    ensures forall i: nat :: i in empty <==> i < n && lists[i] == []
    ensures forall i, j :: 0 <= i < j < |empty| ==> empty[i] != empty[j]
    ensures forall i :: 0 <= i < |empty| ==> empty[i] < n
  {
    if n == 0 then [] else
      var before := EmptyClients(lists, n - 1);
      if lists[n - 1] == [] then before + [n - 1] else before
  }

  // ----- the repair always succeeds -----

  lemma {:induction false} AtMostOneEach(lists: Lists)
    requires forall i :: 0 <= i < |lists| ==> |lists[i]| <= 1
    ensures Size(lists) <= |lists| && ((exists i :: 0 <= i < |lists| && lists[i] == []) ==> Size(lists) < |lists|)
  {
    if lists != [] { AtMostOneEach(lists[1..]); }
  }

  /** With as many samples as clients, an empty client implies one that can spare a sample. */
  lemma SomeoneCanSpare(lists: Lists, client: nat)
    requires client < |lists| && lists[client] == [] && Size(lists) >= |lists|
    ensures exists d :: 0 <= d < |lists| && CanSpare(lists, client, d)
  {
    if forall i :: 0 <= i < |lists| ==> |lists[i]| <= 1 {
      AtMostOneEach(lists);
    } else {
      var d :| 0 <= d < |lists| && |lists[d]| > 1;
      assert CanSpare(lists, client, d);
    }
  }

  /** One repair: the client gets exactly one sample, the donor keeps at least one, everyone else is left alone. */
  lemma RepairedClient(lists: Lists, classOf: Labels, client: nat, preferred: seq<int>)
    requires client < |lists| && lists[client] == [] && Size(lists) >= |lists|
    ensures var r := Repaired(lists, classOf, client, preferred);
      && r.Some? && |r.value[client]| == 1 && Bag(r.value) == Bag(lists) && Size(r.value) == Size(lists)
      && (forall i :: 0 <= i < |lists| && i != client ==>
            |r.value[i]| == |lists[i]| || |r.value[i]| == |lists[i]| - 1 >= 1)
      && (forall i :: 0 <= i < |lists| && i != client && |lists[i]| <= 1 ==> r.value[i] == lists[i])
  {
    var first := FirstClass(lists, classOf, client, preferred);
    if first.Some? {
      var (c, donor) := first.value;
      MovedKeepsBag(lists, donor, FirstOf(lists[donor], classOf, c), client);
    } else {
      SomeoneCanSpare(lists, client);
      LargestDonorIsLargest(lists, client, |lists|);
      var donor := LargestDonor(lists, client, |lists|).value;
      MovedKeepsBag(lists, donor, |lists[donor]| - 1, client);
    }
  }

  /** If any other client can spare a sample of a class the client trains on, the client gets a sample of the first
      such class, from the donor with the most of them. */
  lemma {:induction false} RepairIsConsistent(lists: Lists, classOf: Labels, client: nat, preferred: seq<int>, k: nat)
    requires client < |lists| && lists[client] == [] && k < |preferred|
    requires exists d :: 0 <= d < |lists| && CanGive(lists, classOf, client, preferred[k], d)
    requires forall j, d :: 0 <= j < k && 0 <= d < |lists| ==> !CanGive(lists, classOf, client, preferred[j], d)
    ensures var r := Repaired(lists, classOf, client, preferred); r.Some? && classOf(r.value[client][0]) == preferred[k]
    ensures BestDonor(lists, classOf, client, preferred[k], |lists|).Some?
    ensures FirstClass(lists, classOf, client, preferred)
         == Some((preferred[k], BestDonor(lists, classOf, client, preferred[k], |lists|).value))
    decreases |preferred|
  {
    BestDonorIsBest(lists, classOf, client, preferred[0], |lists|);
    if k > 0 {
      RepairIsConsistent(lists, classOf, client, preferred[1..], k - 1);
    }
  }

  /** The repair never runs out of donors: every empty client ends with exactly one sample, no other client is emptied,
      and no sample is lost or duplicated. */
  lemma {:induction false} RepairSucceeds(lists: Lists, classOf: Labels, empty: seq<nat>, trainLabels: seq<seq<int>>)
    requires |trainLabels| == |lists| && forall i :: 0 <= i < |empty| ==> empty[i] < |lists|
    requires Size(lists) >= |lists| && forall i :: 0 <= i < |lists| ==> (lists[i] == [] <==> i in empty)
    requires forall i, j :: 0 <= i < j < |empty| ==> empty[i] != empty[j]
    ensures var r := RepairAll(lists, classOf, empty, trainLabels);
      && r.Some? && |r.value| == |lists| && Bag(r.value) == Bag(lists)
      && (forall i :: 0 <= i < |lists| ==> r.value[i] != [])
      && (forall i :: 0 <= i < |lists| && lists[i] == [] ==> |r.value[i]| == 1)
      && (forall i :: 0 <= i < |lists| && |lists[i]| == 1 ==> r.value[i] == lists[i])
    decreases |empty|
  {
    if empty != [] {
      var client := empty[0];
      assert client in empty;
      RepairedClient(lists, classOf, client, Preferred(trainLabels[client]));
      hide Repaired, Preferred, Bag, Size;
      var next := Repaired(lists, classOf, client, Preferred(trainLabels[client])).value;
      assert empty == [client] + empty[1..];
      assert client !in empty[1..];
      forall i | 0 <= i < |lists| ensures next[i] == [] <==> i in empty[1..] {
        if i != client { assert lists[i] == [] <==> i in empty; }
      }
      RepairSucceeds(next, classOf, empty[1..], trainLabels);
    }
  }

  // ----- dealing the samples of each class -----

  /** np.where(targets == c)[0] among the first n samples. */
  function Where(targets: seq<int>, c: int, n: nat): seq<nat>
    requires n <= |targets|
  {
    if n == 0 then [] else
      var before := Where(targets, c, n - 1);
      if targets[n - 1] == c then before + [n - 1] else before
  }

  lemma {:induction false} WhereBag(targets: seq<int>, c: int, n: nat, x: nat)
    requires n <= |targets|
    ensures multiset(Where(targets, c, n))[x] == if x < n && targets[x] == c then 1 else 0
  {
    if n > 0 { WhereBag(targets, c, n - 1, x); }
  }

  lemma {:induction false} IntSumSnoc(s: seq<int>, x: int)
    ensures IntSum(s + [x]) == IntSum(s) + x
  {
    if s != [] {
      assert (s + [x])[1..] == s[1..] + [x];
      IntSumSnoc(s[1..], x);
    }
  }

  /** Where the k-th client's share ends. */
  function Offset(shares: seq<int>, k: nat): int
    requires k <= |shares|
  {
    IntSum(shares[..k])
  }

  lemma OffsetStep(shares: seq<int>, k: nat)
    requires k < |shares|
    ensures Offset(shares, k + 1) == Offset(shares, k) + shares[k]
  {
    assert shares[..k + 1] == shares[..k] + [shares[k]];
    IntSumSnoc(shares[..k], shares[k]);
  }

  ghost predicate Shares(shares: seq<int>, total: nat) {
    IntSum(shares) == total && forall i :: 0 <= i < |shares| ==> shares[i] >= 0
  }

  lemma {:induction false} OffsetsInRange(shares: seq<int>, total: nat, k: nat)
    requires Shares(shares, total) && k <= |shares|
    ensures 0 <= Offset(shares, k) <= total
    decreases |shares| - k
  {
    if k < |shares| {
      OffsetsInRange(shares, total, k + 1);
      OffsetStep(shares, k);
    } else {
      assert shares[..k] == shares;
    }
    OffsetNonNegative(shares, k);
  }

  lemma {:induction false} OffsetNonNegative(shares: seq<int>, k: nat)
    requires k <= |shares| && forall i :: 0 <= i < |shares| ==> shares[i] >= 0
    ensures Offset(shares, k) >= 0
  {
    if k > 0 {
      OffsetNonNegative(shares, k - 1);
      OffsetStep(shares, k - 1);
    }
  }

  /** The first k clients receive their consecutive shares. */
  function Deal(lists: Lists, indices: seq<nat>, shares: seq<int>, k: nat): (r: Lists)
    requires k <= |lists| == |shares| && Shares(shares, |indices|)
    ensures |r| == |lists|
  {
    if k == 0 then lists
    else
      OffsetsInRange(shares, |indices|, k - 1);
      OffsetsInRange(shares, |indices|, k);
      OffsetStep(shares, k - 1);
      var before := Deal(lists, indices, shares, k - 1);
      before[k - 1 := before[k - 1] + indices[Offset(shares, k - 1)..Offset(shares, k)]]
  }

  lemma {:induction false} DealBag(lists: Lists, indices: seq<nat>, shares: seq<int>, k: nat)
    requires k <= |lists| == |shares| && Shares(shares, |indices|)
    ensures 0 <= Offset(shares, k) <= |indices|
    ensures Bag(Deal(lists, indices, shares, k)) == Bag(lists) + multiset(indices[..Offset(shares, k)])
  {
    OffsetsInRange(shares, |indices|, k);
    if k > 0 {
      DealBag(lists, indices, shares, k - 1);
      OffsetStep(shares, k - 1);
      var a, b := Offset(shares, k - 1), Offset(shares, k);
      var before := Deal(lists, indices, shares, k - 1);
      BagUpdate(before, k - 1, before[k - 1] + indices[a..b]);
      assert indices[..b] == indices[..a] + indices[a..b];
      AddShare(Bag(before[k - 1 := before[k - 1] + indices[a..b]]), Bag(before), multiset(before[k - 1]),
               multiset(indices[a..b]));
    }
  }

  lemma AddShare(b1: multiset<nat>, b0: multiset<nat>, kept: multiset<nat>, share: multiset<nat>)
    requires b1 + kept == b0 + (kept + share)
    ensures b1 == b0 + share
  {
    forall y ensures b1[y] == (b0 + share)[y] { assert (b1 + kept)[y] == (b0 + (kept + share))[y]; }
  }

  /** How often each client trains on a class. */
  function TrainCounts(trainLabels: seq<seq<int>>, c: int): (w: seq<real>)
    requires trainLabels != []
    ensures |w| == |trainLabels| && ValidWeights(w)
  {
    seq(|trainLabels|, i requires 0 <= i < |trainLabels| => CountOf(trainLabels[i], c) as real)
  }

  lemma AllocationShares(total: nat, weights: seq<real>)
    requires ValidWeights(weights)
    ensures Shares(Allocation(total, weights), total)
  {
    AllocationSum(total, weights);
    var a, q := Allocation(total, weights), Quotas(total, weights);
    forall i | 0 <= i < |a| ensures a[i] >= 0 {
      WithinOne(total, weights, i);
      SumNonNegative(weights);
      QuotaNonNegative(total, weights[i], Sum(weights), |weights|);
    }
  }

  lemma QuotaNonNegative(total: nat, w: real, sum: real, n: nat)
    requires n > 0 && w >= 0.0 && sum >= 0.0
    ensures Quota(total, w, sum, n) >= 0.0
  {
    if sum > 0.0 {
      DivMono(0.0, w, sum);
      ScaleMono(0.0, w / sum, total as real);
    } else {
      ScaleMono(0.0, 1.0 / n as real, total as real);
    }
  }

  /** The random order of each class's samples. */
  type Shuffle = (nat, seq<nat>) -> seq<nat>

  ghost predicate ProperShuffle(shuffle: Shuffle) {
    forall k: nat, s: seq<nat> :: multiset(shuffle(k, s)) == multiset(s)
  }

  function Classes(targets: seq<int>): seq<int> { SortedDistinct(targets) }

  function Shuffled(targets: seq<int>, shuffle: Shuffle, k: nat): seq<nat>
    requires k < |Classes(targets)|
  {
    shuffle(k, Where(targets, Classes(targets)[k], |targets|))
  }

  function DealClass(lists: Lists, trainLabels: seq<seq<int>>, indices: seq<nat>, c: int): (r: Lists)
    requires |lists| == |trainLabels| > 0
    ensures |r| == |lists|
  {
    AllocationShares(|indices|, TrainCounts(trainLabels, c));
    Deal(lists, indices, Allocation(|indices|, TrainCounts(trainLabels, c)), |lists|)
  }

  function DealAll(trainLabels: seq<seq<int>>, targets: seq<int>, shuffle: Shuffle, k: nat): (r: Lists)
    requires trainLabels != [] && k <= |Classes(targets)|
    ensures |r| == |trainLabels|
  {
    if k == 0 then seq(|trainLabels|, i requires 0 <= i < |trainLabels| => [])
    else DealClass(DealAll(trainLabels, targets, shuffle, k - 1), trainLabels, Shuffled(targets, shuffle, k - 1),
                   Classes(targets)[k - 1])
  }

  lemma DealClassBag(lists: Lists, trainLabels: seq<seq<int>>, indices: seq<nat>, c: int)
    requires |lists| == |trainLabels| > 0
    ensures Bag(DealClass(lists, trainLabels, indices, c)) == Bag(lists) + multiset(indices)
  {
    var shares := Allocation(|indices|, TrainCounts(trainLabels, c));
    AllocationShares(|indices|, TrainCounts(trainLabels, c));
    DealBag(lists, indices, shares, |lists|);
    assert shares[..|lists|] == shares && indices[..|indices|] == indices;
  }

  lemma {:induction false} NoSamples(lists: Lists)
    requires forall i :: 0 <= i < |lists| ==> lists[i] == []
    ensures Bag(lists) == multiset{}
  {
    if lists != [] { NoSamples(lists[1..]); }
  }

  /** After k classes exactly their samples are dealt, each once. */
  lemma {:induction false} DealtSoFar(trainLabels: seq<seq<int>>, targets: seq<int>, shuffle: Shuffle, k: nat, x: nat)
    requires trainLabels != [] && k <= |Classes(targets)| && ProperShuffle(shuffle)
    ensures Bag(DealAll(trainLabels, targets, shuffle, k))[x]
         == if x < |targets| && targets[x] in Classes(targets)[..k] then 1 else 0
  {
    if k == 0 {
      NoSamples(DealAll(trainLabels, targets, shuffle, 0));
    } else {
      DealtSoFar(trainLabels, targets, shuffle, k - 1, x);
      DealClassBag(DealAll(trainLabels, targets, shuffle, k - 1), trainLabels, Shuffled(targets, shuffle, k - 1),
                   Classes(targets)[k - 1]);
      hide Bag, DealClass, Where;
      WhereBag(targets, Classes(targets)[k - 1], |targets|, x);
      NextClass(Classes(targets), k, if x < |targets| then targets[x] else 0);
    }
  }

  lemma NextClass(classes: seq<int>, k: nat, c: int)
    requires 0 < k <= |classes| && Increasing(classes)
    ensures c in classes[..k] <==> c in classes[..k - 1] || c == classes[k - 1]
    ensures classes[k - 1] !in classes[..k - 1]
  {
    assert classes[..k] == classes[..k - 1] + [classes[k - 1]];
  }

  // ----- before repairs every client mirrors its training labels -----

  lemma {:induction false} ClassCountAppend(s: seq<nat>, t: seq<nat>, classOf: Labels, c: int)
    ensures ClassCount(s + t, classOf, c) == ClassCount(s, classOf, c) + ClassCount(t, classOf, c)
  {
    if s == [] {
      assert s + t == t;
    } else {
      assert (s + t)[1..] == s[1..] + t;
      ClassCountAppend(s[1..], t, classOf, c);
    }
  }

  lemma {:induction false} ClassCountUniform(s: seq<nat>, classOf: Labels, c: int, d: int)
    requires forall i :: 0 <= i < |s| ==> classOf(s[i]) == d
    ensures ClassCount(s, classOf, c) == if c == d then |s| else 0
  {
    if s != [] { ClassCountUniform(s[1..], classOf, c, d); }
  }

  /** A client's list grows by exactly its slice. */
  lemma {:induction false} DealAt(lists: Lists, indices: seq<nat>, shares: seq<int>, k: nat, i: nat)
    requires k <= |lists| == |shares| && Shares(shares, |indices|) && i < |lists|
    ensures 0 <= Offset(shares, i) <= Offset(shares, i + 1) <= |indices|
    ensures Deal(lists, indices, shares, k)[i]
         == lists[i] + if i < k then indices[Offset(shares, i)..Offset(shares, i + 1)] else []
  {
    OffsetsInRange(shares, |indices|, i);
    OffsetsInRange(shares, |indices|, i + 1);
    OffsetStep(shares, i);
    if k > 0 { DealAt(lists, indices, shares, k - 1, i); }
  }

  lemma ShuffledClass(targets: seq<int>, shuffle: Shuffle, k: nat, i: nat)
    requires k < |Classes(targets)| && ProperShuffle(shuffle) && i < |Shuffled(targets, shuffle, k)|
    ensures ClassOf(targets)(Shuffled(targets, shuffle, k)[i]) == Classes(targets)[k]
  {
    var s, c := Shuffled(targets, shuffle, k), Classes(targets)[k];
    assert s[i] in multiset(s);
    WhereBag(targets, c, |targets|, s[i]);
  }

  lemma DealClassCounts(lists: Lists, trainLabels: seq<seq<int>>, indices: seq<nat>, classOf: Labels, c: int, d: int,
                        i: nat)
    requires |lists| == |trainLabels| && i < |lists|
    requires forall j :: 0 <= j < |indices| ==> classOf(indices[j]) == d
    ensures ClassCount(DealClass(lists, trainLabels, indices, d)[i], classOf, c)
         == ClassCount(lists[i], classOf, c)
            + if c == d then Allocation(|indices|, TrainCounts(trainLabels, d))[i] else 0
  {
    var shares := Allocation(|indices|, TrainCounts(trainLabels, d));
    AllocationShares(|indices|, TrainCounts(trainLabels, d));
    hide Allocation, TrainCounts;
    DealAt(lists, indices, shares, |lists|, i);
    OffsetStep(shares, i);
    var slice := indices[Offset(shares, i)..Offset(shares, i + 1)];
    ClassCountAppend(lists[i], slice, classOf, c);
    ClassCountUniform(slice, classOf, c, d);
  }

  /** Class by class, a client is dealt its largest-remainder share of the class's evaluation samples in proportion to
      how often it trains on the class. */
  lemma {:induction false} DealtShares(trainLabels: seq<seq<int>>, targets: seq<int>, shuffle: Shuffle, k: nat, i: nat,
                                       j: nat)
    requires i < |trainLabels| && k <= |Classes(targets)| && j < |Classes(targets)| && ProperShuffle(shuffle)
    ensures ClassCount(DealAll(trainLabels, targets, shuffle, k)[i], ClassOf(targets), Classes(targets)[j])
         == if j < k
            then Allocation(|Shuffled(targets, shuffle, j)|, TrainCounts(trainLabels, Classes(targets)[j]))[i]
            else 0
  {
    hide ClassOf, DealClass, Allocation, TrainCounts, Shuffled, Classes, DealAll, ClassCount;
    if k == 0 {
      DealtNothing(trainLabels, targets, shuffle, i, Classes(targets)[j]);
    } else {
      DealtShares(trainLabels, targets, shuffle, k - 1, i, j);
      DealAllStep(trainLabels, targets, shuffle, k);
      var indices := Shuffled(targets, shuffle, k - 1);
      forall p | 0 <= p < |indices| ensures ClassOf(targets)(indices[p]) == Classes(targets)[k - 1] {
        ShuffledClass(targets, shuffle, k - 1, p);
      }
      DealClassCounts(DealAll(trainLabels, targets, shuffle, k - 1), trainLabels, indices, ClassOf(targets),
                      Classes(targets)[j], Classes(targets)[k - 1], i);
      DistinctClasses(targets, j, k - 1);
    }
  }

  lemma DealtNothing(trainLabels: seq<seq<int>>, targets: seq<int>, shuffle: Shuffle, i: nat, c: int)
    requires i < |trainLabels|
    ensures ClassCount(DealAll(trainLabels, targets, shuffle, 0)[i], ClassOf(targets), c) == 0
  {}

  lemma DealAllStep(trainLabels: seq<seq<int>>, targets: seq<int>, shuffle: Shuffle, k: nat)
    requires trainLabels != [] && 0 < k <= |Classes(targets)|
    ensures DealAll(trainLabels, targets, shuffle, k)
         == DealClass(DealAll(trainLabels, targets, shuffle, k - 1), trainLabels, Shuffled(targets, shuffle, k - 1),
                      Classes(targets)[k - 1])
  {}

  lemma DistinctClasses(targets: seq<int>, i: nat, j: nat)
    requires i < |Classes(targets)| && j < |Classes(targets)|
    ensures Classes(targets)[i] == Classes(targets)[j] <==> i == j
  {}

  // ----- the partition -----

  /** Sorting a client's samples. */
  function InsertSample(x: nat, s: seq<nat>): (r: seq<nat>)
    ensures multiset(r) == multiset(s) + multiset{x}
  {
    if s == [] then [x]
    else
      assert s == [s[0]] + s[1..];
      if x <= s[0] then [x] + s else [s[0]] + InsertSample(x, s[1..])
  }

  function SortSamples(s: seq<nat>): (r: seq<nat>)
    ensures multiset(r) == multiset(s)
  {
    if s == [] then [] else
      assert s == [s[0]] + s[1..];
      InsertSample(s[0], SortSamples(s[1..]))
  }

  ghost predicate NonDecreasing(s: seq<nat>) { forall i, j :: 0 <= i < j < |s| ==> s[i] <= s[j] }

  lemma {:induction false} InsertKeepsSorted(x: nat, s: seq<nat>)
    requires NonDecreasing(s)
    ensures NonDecreasing(InsertSample(x, s))
  {
    if s != [] && x > s[0] {
      InsertKeepsSorted(x, s[1..]);
      var rest := InsertSample(x, s[1..]);
      forall j | 0 <= j < |rest| ensures s[0] <= rest[j] {
        assert rest[j] in multiset(rest);
        if rest[j] != x { assert rest[j] in s[1..]; }
      }
    }
  }

  lemma {:induction false} SortSorts(s: seq<nat>)
    ensures NonDecreasing(SortSamples(s))
  {
    if s != [] {
      SortSorts(s[1..]);
      InsertKeepsSorted(s[0], SortSamples(s[1..]));
    }
  }

  function SortAll(lists: Lists): (r: Lists)
    ensures |r| == |lists| && forall i :: 0 <= i < |r| ==> r[i] == SortSamples(lists[i])
  {
    seq(|lists|, i requires 0 <= i < |lists| => SortSamples(lists[i]))
  }

  function Concatenated(lists: Lists): seq<nat> {
    if lists == [] then [] else lists[0] + Concatenated(lists[1..])
  }

  /** The closing checks of the partitioner. */
  function Closed(lists: Lists, m: nat): Outcome<Lists> {
    if exists i :: 0 <= i < |lists| && lists[i] == []
    then Error("held-out evaluation contains an empty client partition")
    else if |Concatenated(lists)| != m then Error("evaluation partition did not assign every sample exactly once")
    else if |SortedDistinct(Concatenated(lists))| != m then
      Error("evaluation partition assigned at least one sample twice")
    else Ok(lists)
  }

  function ClassOf(targets: seq<int>): Labels {
    (x: nat) => if x < |targets| then targets[x] else 0
  }

  function PartitionOf(trainLabels: seq<seq<int>>, targets: seq<int>, shuffle: Shuffle): Outcome<Lists>
    requires trainLabels != []
  {
    var dealt := DealAll(trainLabels, targets, shuffle, |Classes(targets)|);
    var repaired := RepairAll(dealt, ClassOf(targets), EmptyClients(dealt, |dealt|), trainLabels);
    if repaired.None? then Error("cannot create a non-empty held-out partition for every client")
    else Closed(SortAll(repaired.value), |targets|)
  }

  predicate Contiguous(train: map<int, seq<int>>) {
    forall id :: id in train ==> 0 <= id < |train|
  }

  lemma ContiguousIds(train: map<int, seq<int>>)
    requires Contiguous(train)
    ensures forall i :: 0 <= i < |train| ==> i in train
  {
    assert train.Keys <= Range(|train|);
    if i :| 0 <= i < |train| && i !in train {
      assert train.Keys <= Range(|train|) - {i};
      SubsetSize(train.Keys, Range(|train|) - {i});
    }
  }

  function Range(n: nat): (r: set<int>)
    ensures |r| == n && forall i :: i in r <==> 0 <= i < n
  {
    if n == 0 then {} else Range(n - 1) + {n - 1}
  }

  /** partition_evaluation_by_train_distribution, from the labels that every client trains on. */
  function Partition(train: map<int, seq<int>>, targets: seq<int>, shuffle: Shuffle): Outcome<Lists> {
    if train == map[] then Error("train_client_dict must contain at least one client")
    else if !Contiguous(train) then Error("client ids must be contiguous integers starting at zero")
    else if |targets| < |train| then Error("evaluation dataset must contain at least one sample per client")
    else
      ContiguousIds(train);
      PartitionOf(seq(|train|, i requires 0 <= i < |train| => train[i]), targets, shuffle)
  }

  // ----- exact cover -----

  /** Every one of the m samples lies in exactly one list, exactly once, and nothing else does. */
  ghost predicate ExactCover(lists: Lists, m: nat) {
    forall x: nat :: Bag(lists)[x] == if x < m then 1 else 0
  }

  lemma {:induction false} ConcatenatedBag(lists: Lists)
    ensures multiset(Concatenated(lists)) == Bag(lists)
  {
    if lists != [] { ConcatenatedBag(lists[1..]); }
  }

  lemma {:induction false} SameBags(a: Lists, b: Lists)
    requires |a| == |b| && forall i :: 0 <= i < |a| ==> multiset(a[i]) == multiset(b[i])
    ensures Bag(a) == Bag(b)
  {
    if a != [] { SameBags(a[1..], b[1..]); }
  }

  lemma {:induction false} CoverSize(b: multiset<nat>, m: nat)
    requires forall x: nat :: b[x] == if x < m then 1 else 0
    ensures |b| == m
  {
    if m == 0 {
      assert b == multiset{};
    } else {
      CoverSize(b - multiset{m - 1}, m - 1);
      assert b == (b - multiset{m - 1}) + multiset{m - 1};
    }
  }

  lemma {:induction false} InsertLength(x: int, s: seq<int>)
    requires Increasing(s)
    ensures |Insert(x, s)| == if x in s then |s| else |s| + 1
  {
    if s != [] && x > s[0] {
      assert s == [s[0]] + s[1..];
      InsertLength(x, s[1..]);
    }
  }

  /** np.unique loses nothing from a list without repeats. */
  lemma {:induction false} UniqueLength(s: seq<nat>)
    requires forall x: nat :: multiset(s)[x] <= 1
    ensures |SortedDistinct(s)| == |s|
  {
    if s != [] {
      assert s == [s[0]] + s[1..];
      assert forall x: nat :: multiset(s)[x] == multiset(s[1..])[x] + if x == s[0] then 1 else 0;
      UniqueLength(s[1..]);
      InsertLength(s[0], SortedDistinct(s[1..]));
    }
  }

  /** The closing checks pass on an exact cover by non-empty lists. */
  lemma ClosedPasses(lists: Lists, m: nat)
    requires ExactCover(lists, m) && forall i :: 0 <= i < |lists| ==> lists[i] != []
    ensures Closed(lists, m) == Ok(lists)
  {
    ConcatenatedBag(lists);
    CoverSize(Bag(lists), m);
    UniqueLength(Concatenated(lists));
  }

  lemma DealtCovers(trainLabels: seq<seq<int>>, targets: seq<int>, shuffle: Shuffle)
    requires trainLabels != [] && ProperShuffle(shuffle)
    ensures ExactCover(DealAll(trainLabels, targets, shuffle, |Classes(targets)|), |targets|)
  {
    hide DealAll, Bag;
    var classes := Classes(targets);
    forall x: nat ensures Bag(DealAll(trainLabels, targets, shuffle, |classes|))[x] == if x < |targets| then 1 else 0 {
      DealtSoFar(trainLabels, targets, shuffle, |classes|, x);
      assert classes[..|classes|] == classes;
      if x < |targets| { assert targets[x] in targets; }
    }
  }

  /** The partitioner's two remaining errors are unreachable: with a sample per client it always returns a partition in
      which every sample lies in exactly one client, no client is empty, and every list is sorted. */
  lemma PartitionIsExact(trainLabels: seq<seq<int>>, targets: seq<int>, shuffle: Shuffle)
    requires trainLabels != [] && |targets| >= |trainLabels| && ProperShuffle(shuffle)
    ensures var r := PartitionOf(trainLabels, targets, shuffle);
      && r.Ok? && |r.value| == |trainLabels| && ExactCover(r.value, |targets|)
      && forall i :: 0 <= i < |r.value| ==> r.value[i] != [] && NonDecreasing(r.value[i])
  {
    hide DealAll, RepairAll, Closed, SortSamples, Bag, Size;
    var dealt := DealAll(trainLabels, targets, shuffle, |Classes(targets)|);
    DealtCovers(trainLabels, targets, shuffle);
    CoverSize(Bag(dealt), |targets|);
    BagSize(dealt);
    RepairSucceeds(dealt, ClassOf(targets), EmptyClients(dealt, |dealt|), trainLabels);
    var repaired := RepairAll(dealt, ClassOf(targets), EmptyClients(dealt, |dealt|), trainLabels).value;
    var sorted := SortAll(repaired);
    SameBags(sorted, repaired);
    forall i | 0 <= i < |sorted| ensures sorted[i] != [] && NonDecreasing(sorted[i]) {
      SortSorts(repaired[i]);
      assert |multiset(sorted[i])| == |multiset(repaired[i])|;
    }
    ClosedPasses(sorted, |targets|);
  }

  /** It succeeds exactly on a non-empty contiguous dictionary with at least one evaluation sample per client. */
  lemma PartitionSucceeds(train: map<int, seq<int>>, targets: seq<int>, shuffle: Shuffle)
    requires ProperShuffle(shuffle)
    ensures var r := Partition(train, targets, shuffle);
      && (r.Ok? <==> train != map[] && Contiguous(train) && |targets| >= |train|)
      && (r.Ok? ==> |r.value| == |train| && ExactCover(r.value, |targets|)
                    && forall i :: 0 <= i < |r.value| ==> r.value[i] != [])
  {
    if train != map[] && Contiguous(train) && |targets| >= |train| {
      ContiguousIds(train);
      PartitionIsExact(seq(|train|, i requires 0 <= i < |train| => train[i]), targets, shuffle);
    }
  }

  // ----- the program -----

  /** max over the donor candidates of a class. */
  method FindBestDonor(lists: array<seq<nat>>, classOf: Labels, client: nat, c: int) returns (best: Option<nat>)
    ensures best == BestDonor(lists[..], classOf, client, c, lists.Length)
  {
    best := None;
    for d := 0 to lists.Length
      invariant best == BestDonor(lists[..], classOf, client, c, d)
    {
      if d == client || |lists[d]| <= 1 { continue; }
      var count := ClassCount(lists[d], classOf, c);
      if count > 0 {
        if best.None? || GivesNoMore(lists[..], classOf, c, best.value, d) { best := Some(d); }
      }
    }
  }

  /** max over all donors. */
  method FindLargestDonor(lists: array<seq<nat>>, client: nat) returns (best: Option<nat>)
    ensures best == LargestDonor(lists[..], client, lists.Length)
  {
    best := None;
    for d := 0 to lists.Length
      invariant best == LargestDonor(lists[..], client, d)
    {
      if d == client || |lists[d]| <= 1 { continue; }
      if best.None? || SparesNoMore(lists[..], best.value, d) { best := Some(d); }
    }
  }

  /** donor.pop(position), client.append(it). */
  method Move(lists: array<seq<nat>>, donor: nat, position: nat, client: nat)
    requires donor < lists.Length && client < lists.Length && donor != client && position < |lists[donor]|
    modifies lists
    ensures lists[..] == Moved(old(lists[..]), donor, position, client)
  {
    var sample := lists[donor][position];
    lists[donor] := Without(lists[donor], position);
    lists[client] := lists[client] + [sample];
  }

  /** The search over a client's classes. */
  method FindClass(lists: array<seq<nat>>, classOf: Labels, client: nat, preferred: seq<int>)
    returns (found: Option<(int, nat)>)
    ensures found == FirstClass(lists[..], classOf, client, preferred)
  {
    for k := 0 to |preferred|
      invariant FirstClass(lists[..], classOf, client, preferred)
             == FirstClass(lists[..], classOf, client, preferred[k..])
    {
      assert preferred[k..][1..] == preferred[k + 1..];
      var donor := FindBestDonor(lists, classOf, client, preferred[k]);
      if donor.Some? { return Some((preferred[k], donor.value)); }
    }
    return None;
  }

  method RepairClient(lists: array<seq<nat>>, classOf: Labels, client: nat, preferred: seq<int>) returns (moved: bool)
    requires client < lists.Length
    modifies lists
    ensures var r := Repaired(old(lists[..]), classOf, client, preferred);
            (moved <==> r.Some?) && (moved ==> lists[..] == r.value)
  {
    var found := FindClass(lists, classOf, client, preferred);
    if found.Some? {
      var position := FirstOf(lists[found.value.1], classOf, found.value.0);
      Move(lists, found.value.1, position, client);
      return true;
    }
    var donor := FindLargestDonor(lists, client);
    if donor.None? { return false; }
    Move(lists, donor.value, |lists[donor.value]| - 1, client);
    return true;
  }

  /** _repair_empty_evaluation_clients; false when it raises. */
  method RepairEmptyClients(lists: array<seq<nat>>, classOf: Labels, trainLabels: seq<seq<int>>) returns (ok: bool)
    requires |trainLabels| == lists.Length
    modifies lists
    ensures var r := RepairAll(old(lists[..]), classOf, EmptyClients(old(lists[..]), lists.Length), trainLabels);
            (ok <==> r.Some?) && (ok ==> lists[..] == r.value)
  {
    hide Repaired, EmptyClients;
    var empty := EmptyClients(lists[..], lists.Length);
    ghost var goal := RepairAll(lists[..], classOf, empty, trainLabels);
    for k := 0 to |empty|
      invariant goal == RepairAll(lists[..], classOf, empty[k..], trainLabels)
    {
      assert empty[k..][1..] == empty[k + 1..];
      var moved := RepairClient(lists, classOf, empty[k], Preferred(trainLabels[empty[k]]));
      if !moved { return false; }
    }
    assert empty[|empty|..] == [];
    return true;
  }

  /** The inner loop over clients: consecutive slices of the class's shuffled samples. */
  method DealShares(lists: array<seq<nat>>, indices: seq<nat>, shares: seq<int>)
    requires |shares| == lists.Length && Shares(shares, |indices|)
    modifies lists
    ensures lists[..] == Deal(old(lists[..]), indices, shares, lists.Length)
  {
    var offset := 0;
    assert shares[..0] == [];
    for client := 0 to lists.Length
      invariant offset == Offset(shares, client)
      invariant lists[..] == Deal(old(lists[..]), indices, shares, client)
    {
      OffsetsInRange(shares, |indices|, client);
      OffsetsInRange(shares, |indices|, client + 1);
      OffsetStep(shares, client);
      var next := offset + shares[client];
      if shares[client] != 0 {
        lists[client] := lists[client] + indices[offset..next];
      } else {
        assert lists[client] + indices[offset..next] == lists[client];
      }
      offset := next;
    }
  }

  /** partition_evaluation_by_train_distribution. */
  method PartitionEvaluation(train: map<int, seq<int>>, targets: seq<int>, shuffle: Shuffle) returns (r: Outcome<Lists>)
    requires ProperShuffle(shuffle)
    ensures r == Partition(train, targets, shuffle)
  {
    if train == map[] { return Error("train_client_dict must contain at least one client"); }
    if !Contiguous(train) { return Error("client ids must be contiguous integers starting at zero"); }
    if |targets| < |train| { return Error("evaluation dataset must contain at least one sample per client"); }
    ContiguousIds(train);
    var trainLabels := seq(|train|, i requires 0 <= i < |train| => train[i]);
    r := PartitionLists(trainLabels, targets, shuffle);
  }

  method PartitionLists(trainLabels: seq<seq<int>>, targets: seq<int>, shuffle: Shuffle) returns (r: Outcome<Lists>)
    requires trainLabels != [] && ProperShuffle(shuffle)
    ensures r == PartitionOf(trainLabels, targets, shuffle)
  {
    hide DealClass, RepairAll, EmptyClients, Closed, Classes, SortSamples, ClassOf;
    var lists := new seq<nat>[|trainLabels|](_ => []);
    assert lists[..] == DealAll(trainLabels, targets, shuffle, 0);
    var classes := Classes(targets);
    for k := 0 to |classes|
      invariant lists[..] == DealAll(trainLabels, targets, shuffle, k)
    {
      DealOneClass(lists, trainLabels, Shuffled(targets, shuffle, k), classes[k]);
    }
    var repaired := RepairEmptyClients(lists, ClassOf(targets), trainLabels);
    if !repaired { return Error("cannot create a non-empty held-out partition for every client"); }
    r := Closed(SortAll(lists[..]), |targets|);
  }

  method DealOneClass(lists: array<seq<nat>>, trainLabels: seq<seq<int>>, indices: seq<nat>, c: int)
    requires lists.Length == |trainLabels| > 0
    modifies lists
    ensures lists[..] == DealClass(old(lists[..]), trainLabels, indices, c)
  {
    var allocations := LargestRemainderAllocation(|indices|, TrainCounts(trainLabels, c));
    AllocationShares(|indices|, TrainCounts(trainLabels, c));
    DealShares(lists, indices, allocations.value);
  }
}
