/**
 * `getUniqueResourceGroupName`, sample.go:433-463: picks the name of the
 * resource group the program creates, from the names already in use.
 *
 * The names that start with the prefix are sorted as strings, not as
 * numbers, and the scan compares position i + 1 of that order with the
 * name `prefix` + i. The name returned is therefore fresh only when each
 * name is listed once and the suffixes in use sort like their numbers do
 * (FreshWhenSuffixesAreSingleDigits); with a name listed twice, or one
 * sorting between two single-digit ones, it can be a name already taken
 * (RepeatedNameCollides, InterloperHidesTakenName, TwoDigitSuffixCollides).
 */
module Allocator {
  import opened Wrappers
  import opened Text
  import opened Status
  import opened Cloud

  const Prefix := "networkSecurityGroupSample"

  /** The name chosen, or the error; the name is empty when there is an error. */
  datatype NameReply = NameReply(name: string, err: Option<string>)

  /** The listed names that start with the prefix, in list order. */
  function Prefixed(names: seq<string>): seq<string> {
    if names == [] then []
    else
      var last := names[|names| - 1];
      Prefixed(names[..|names| - 1]) + (if HasPrefix(last, Prefix) then [last] else [])
  }

  /** The prefixed names in sorted order: `seen` after `sort.Strings`. */
  function Seen(names: seq<string>): seq<string> {
    SortStrings(Prefixed(names))
  }

  /** `fmt.Sprintf("%s%d", prefix, i)` */
  function Candidate(i: nat): (c: string)
    ensures HasPrefix(c, Prefix) && |c| > |Prefix|
  {
    Prefix + Decimal(i)
  }

  /** The scan from index i on: the first candidate that differs from the name after it in `seen`. */
  function FirstGap(seen: seq<string>, i: nat): string
    requires i < |seen|
    decreases |seen| - i
  {
    if i < |seen| - 1 then
      if seen[i + 1] != Candidate(i) then Candidate(i) else FirstGap(seen, i + 1)
    else Candidate(|seen| - 1)
  }

  /** The name the allocator picks from the outcome of listing the groups. */
  function AllocateName(reply: ListReply): NameReply {
    if reply.err.Some? then NameReply("", reply.err)
    else if reply.statusCode == StatusOK then
      var seen := Seen(reply.names);
      if |seen| > 0 && seen[0] == Prefix then NameReply(FirstGap(seen, 0), None)
      else NameReply(Prefix, None)
    else NameReply("", Some("Bad response: " + IntDecimal(reply.statusCode)))
  }

  /**
   * `getUniqueResourceGroupName` once the listing call has returned `reply`:
   * collects the prefixed names, sorts them and scans them for a gap.
   */
  method GetUniqueResourceGroupName(reply: ListReply) returns (name: string, err: Option<string>)
    ensures NameReply(name, err) == AllocateName(reply)
  {
    if reply.err.Some? {
      return "", reply.err;
    }
    if reply.statusCode == StatusOK {
      var seen, any := CollectPrefixed(reply.names);
      SortStringsSorts(seen);
      seen := SortStrings(seen);
      assert seen == Seen(reply.names);
      if any && seen[0] == Prefix {
        name := ScanForGap(seen);
        return name, None;
      }
      return Prefix, None;
    }
    return "", Some("Bad response: " + IntDecimal(reply.statusCode));
  }

  /** The first loop of `getUniqueResourceGroupName`: keeps the prefixed names. */
  method CollectPrefixed(names: seq<string>) returns (seen: seq<string>, any: bool)
    ensures seen == Prefixed(names) && any == (|seen| > 0)
  {
    any := false;
    seen := [];
    for k := 0 to |names|
      invariant seen == Prefixed(names[..k])
      invariant any == (|seen| > 0)
    {
      var rg := names[k];
      if HasPrefix(rg, Prefix) {
        any := true;
        seen := seen + [rg];
      }
      assert names[..k + 1][..k] == names[..k];
    }
    assert names[..|names|] == names;
  }

  /** The second loop of `getUniqueResourceGroupName`: the scan for a gap. */
  method ScanForGap(seen: seq<string>) returns (name: string)
    requires |seen| > 0
    ensures name == FirstGap(seen, 0)
  {
    var count := |seen| - 1;
    for i := 0 to count
      invariant FirstGap(seen, i) == FirstGap(seen, 0)
    {
      var candidate := Prefix + Decimal(i);
      if seen[i + 1] != candidate {
        return candidate;
      }
    }
    return Prefix + Decimal(|seen| - 1);
  }

  // ---------------------------------------------------------------------------
  // Facts about the collected names

  /**
   * The first loop keeps a name exactly when it is listed with the prefix,
   * and as often as it is listed.
   */
  lemma {:induction false} PrefixedMembers(names: seq<string>)
    ensures forall x :: x in Prefixed(names) <==> x in names && HasPrefix(x, Prefix)
    ensures forall x :: multiset(Prefixed(names))[x] == if HasPrefix(x, Prefix) then multiset(names)[x] else 0
    ensures multiset(Prefixed(names)) <= multiset(names)
  {
    if names != [] {
      var init, last := names[..|names| - 1], names[|names| - 1];
      PrefixedMembers(init);
      assert names == init + [last];
      var kept := if HasPrefix(last, Prefix) then [last] else [];
      assert multiset(Prefixed(names)) == multiset(Prefixed(init)) + multiset(kept);
      assert multiset(names) == multiset(init) + multiset{last};
    }
  }

  lemma {:induction false} PrefixedKeepsPrefixed(names: seq<string>)
    requires forall x :: x in names ==> HasPrefix(x, Prefix)
    ensures Prefixed(names) == names
  {
    if names != [] {
      PrefixedKeepsPrefixed(names[..|names| - 1]);
      assert names == names[..|names| - 1] + [names[|names| - 1]];
    }
  }

  /**
   * The sorted names are sorted, and hold each listed prefixed name as often
   * as it is listed and nothing else.
   */
  lemma SeenMembers(names: seq<string>)
    ensures forall x :: x in Seen(names) <==> x in names && HasPrefix(x, Prefix)
    ensures forall x :: multiset(Seen(names))[x] == if HasPrefix(x, Prefix) then multiset(names)[x] else 0
    ensures multiset(Seen(names)) <= multiset(names)
    ensures Sorted(Seen(names))
  {
    SortStringsSorts(Prefixed(names));
    PrefixedMembers(names);
    forall x ensures x in Seen(names) <==> x in Prefixed(names) {
      assert x in Seen(names) <==> x in multiset(Seen(names));
      assert x in Prefixed(names) <==> x in multiset(Prefixed(names));
    }
  }

  /** When the bare prefix is listed it is the first of the sorted names. */
  lemma PrefixHeadsSeen(names: seq<string>)
    requires Prefix in names
    ensures |Seen(names)| > 0 && Seen(names)[0] == Prefix
  {
    SeenMembers(names);
    var seen := Seen(names);
    SortedHeadLeast(seen, Prefix);
    assert seen[0] in seen;
    if seen[0] != Prefix {
      PrefixComesFirst(Prefix, seen[0]);
      LessAsymmetric(Prefix, seen[0]);
    }
  }

  /** The scan returns the first candidate k whose slot holds another name, or the last. */
  lemma {:induction false} FirstGapFound(seen: seq<string>, i: nat) returns (k: nat)
    requires i < |seen|
    ensures i <= k < |seen| && FirstGap(seen, i) == Candidate(k)
    ensures forall j :: i <= j < k ==> seen[j + 1] == Candidate(j)
    ensures k == |seen| - 1 || seen[k + 1] != Candidate(k)
    decreases |seen| - i
  {
    if i < |seen| - 1 && seen[i + 1] == Candidate(i) {
      k := FirstGapFound(seen, i + 1);
    } else {
      k := i;
    }
  }

  /** Conversely, such a k is what the scan returns. */
  lemma {:induction false} FirstGapCharacterised(seen: seq<string>, i: nat, k: nat)
    requires i <= k < |seen|
    requires forall j :: i <= j < k ==> seen[j + 1] == Candidate(j)
    requires k == |seen| - 1 || seen[k + 1] != Candidate(k)
    ensures FirstGap(seen, i) == Candidate(k)
    decreases k - i
  {
    if i < k {
      FirstGapCharacterised(seen, i + 1, k);
    }
  }

  // ---------------------------------------------------------------------------
  // What the allocator promises

  /**
   * A failed listing is returned verbatim; a listing without error but with
   * a status other than 200 yields the "Bad response" error; either way the
   * name is empty. Otherwise the name starts with the prefix.
   */
  lemma AllocationOutcome(reply: ListReply)
    ensures var r := AllocateName(reply);
      && (r.err.Some? <==> reply.err.Some? || reply.statusCode != StatusOK)
      && (r.err.Some? ==> r.name == "")
      && (reply.err.Some? ==> r.err == reply.err)
      && (reply.err.None? && reply.statusCode != StatusOK ==>
            r.err == Some("Bad response: " + IntDecimal(reply.statusCode)))
      && (r.err.None? ==> HasPrefix(r.name, Prefix) && |r.name| >= |Prefix|)
  {
    if reply.err.None? && reply.statusCode == StatusOK {
      var seen := Seen(reply.names);
      if |seen| > 0 && seen[0] == Prefix {
        var k := FirstGapFound(seen, 0);
      }
    }
  }

  /** The allocator returns the bare prefix exactly when no listed name equals it. */
  lemma AllocatesPrefixWhenFree(reply: ListReply)
    requires reply.err.None? && reply.statusCode == StatusOK
    ensures AllocateName(reply) == NameReply(Prefix, None) <==> Prefix !in reply.names
  {
    var seen := Seen(reply.names);
    SeenMembers(reply.names);
    if Prefix in reply.names {
      PrefixHeadsSeen(reply.names);
      var k := FirstGapFound(seen, 0);
      assert |Candidate(k)| > |Prefix|;
    } else {
      assert |seen| > 0 ==> seen[0] in seen;
    }
  }

  /**
   * When the bare prefix is taken, the allocator returns `prefix` + k for the
   * least k < |seen| - 1 whose successor slot does not hold `prefix` + k, and
   * `prefix` + (|seen| - 1) when there is no such k.
   */
  lemma AllocatesFirstGapWhenTaken(reply: ListReply, k: nat)
    requires reply.err.None? && reply.statusCode == StatusOK && Prefix in reply.names
    requires k < |Seen(reply.names)|
    requires forall j :: 0 <= j < k ==> Seen(reply.names)[j + 1] == Candidate(j)
    requires k == |Seen(reply.names)| - 1 || Seen(reply.names)[k + 1] != Candidate(k)
    ensures AllocateName(reply) == NameReply(Candidate(k), None)
  {
    PrefixHeadsSeen(reply.names);
    FirstGapCharacterised(Seen(reply.names), 0, k);
  }

  // ---------------------------------------------------------------------------
  // Freshness, and where it fails

  /** Every prefixed name is the prefix itself or the prefix and one digit. */
  predicate SingleDigitSuffixes(names: seq<string>) {
    forall x :: x in names && HasPrefix(x, Prefix) ==>
      x == Prefix || (|x| == |Prefix| + 1 && IsDigit(x[|Prefix|]))
  }

  /** Each name is listed once, as the service lists the groups of a subscription. */
  predicate Unique(names: seq<string>) {
    forall x :: x in names ==> multiset(names)[x] == 1
  }

  /** A string counted once in a sequence does not occur at two positions of it. */
  lemma CountedOnce(s: seq<string>, i: nat, j: nat)
    requires i < j < |s| && multiset(s)[s[i]] <= 1
    ensures s[i] != s[j]
  {
    assert s == s[..j] + s[j..];
    assert s[i] in multiset(s[..j]);
    assert multiset(s[j..])[s[i]] == 0;
    assert s[j] in s[j..];
  }

  lemma CandidateInjective(a: nat, b: nat)
    ensures Candidate(a) == Candidate(b) <==> a == b
  {
    assert Candidate(a)[|Prefix|..] == Decimal(a);
    assert Candidate(b)[|Prefix|..] == Decimal(b);
    DecimalInjective(a, b);
  }

  /** The digit after the prefix in the sorted names past the first, in increasing order. */
  lemma SeenDigitsIncrease(seen: seq<string>, a: nat, b: nat)
    requires Sorted(seen) && 0 < a < b < |seen| && seen[a] != seen[b]
    requires |seen[a]| == |seen[b]| == |Prefix| + 1
    requires HasPrefix(seen[a], Prefix) && HasPrefix(seen[b], Prefix)
    ensures seen[a][|Prefix|] < seen[b][|Prefix|]
  {
    var x, y := seen[a][|Prefix|..], seen[b][|Prefix|..];
    assert seen[a] == Prefix + x && seen[b] == Prefix + y;
    assert LessEq(seen[a], seen[b]);
    LessAfterCommonPrefix(Prefix, x, y);
    assert Less(x, y);
  }

  /**
   * Past the gap at k, no slot holds candidate k: for k >= 10 the candidate
   * is too long; for k < 10 the slot k + 1 holds a digit above k, and every
   * later slot a larger one.
   */
  lemma LaterSlotDiffers(seen: seq<string>, k: nat, m: nat)
    requires Sorted(seen) && k + 1 < m < |seen|
    requires seen[k + 1] != seen[m]
    requires k > 0 ==> seen[k] != seen[k + 1] && seen[k] == Candidate(k - 1)
    requires forall n :: k <= n <= m && n > 0 ==>
      HasPrefix(seen[n], Prefix) && |seen[n]| == |Prefix| + 1 && IsDigit(seen[n][|Prefix|])
    requires seen[k + 1] != Candidate(k)
    ensures seen[m] != Candidate(k)
  {
    if k >= 10 {
      assert |Candidate(k)| > |Prefix| + 1;
      return;
    }
    var digit := DigitChar(k);
    assert Candidate(k) == Prefix + [digit];
    var next := seen[k + 1][|Prefix|];
    assert seen[k + 1] == Prefix + [next];
    if k > 0 {
      assert Decimal(k - 1) == [DigitChar(k - 1)];
      assert seen[k][|Prefix|] == DigitChar(k - 1);
      SeenDigitsIncrease(seen, k, k + 1);
    }
    assert digit < next;
    SeenDigitsIncrease(seen, k + 1, m);
    assert seen[m][|Prefix|] != Candidate(k)[|Prefix|];
  }

  /** Up to the gap at k, slot m holds candidate m - 1, which is not candidate k. */
  lemma EarlierSlotsDiffer(seen: seq<string>, k: nat)
    requires k < |seen|
    requires forall j :: 0 <= j < k ==> seen[j + 1] == Candidate(j)
    ensures forall m :: 0 < m <= k ==> seen[m] != Candidate(k)
  {
    forall m | 0 < m <= k ensures seen[m] != Candidate(k) {
      assert seen[m] == Candidate(m - 1);
      CandidateInjective(m - 1, k);
    }
  }

  /** Past the gap at k, no slot holds candidate k. */
  lemma LaterSlotsDiffer(seen: seq<string>, k: nat)
    requires Sorted(seen) && k < |seen|
    requires forall i, j :: 0 <= i < j < |seen| ==> seen[i] != seen[j]
    requires forall m :: 0 < m < |seen| ==>
      HasPrefix(seen[m], Prefix) && |seen[m]| == |Prefix| + 1 && IsDigit(seen[m][|Prefix|])
    requires k > 0 ==> seen[k] == Candidate(k - 1)
    requires k == |seen| - 1 || seen[k + 1] != Candidate(k)
    ensures forall m :: k < m < |seen| ==> seen[m] != Candidate(k)
  {
    forall m | k + 1 < m < |seen| ensures seen[m] != Candidate(k) {
      LaterSlotDiffers(seen, k, m);
    }
  }

  /** The candidate the scan stops at is not among the sorted names. */
  lemma GapIsFresh(seen: seq<string>, k: nat)
    requires Sorted(seen) && |seen| > 0 && seen[0] == Prefix && k < |seen|
    requires forall i, j :: 0 <= i < j < |seen| ==> seen[i] != seen[j]
    requires forall m :: 0 < m < |seen| ==>
      HasPrefix(seen[m], Prefix) && |seen[m]| == |Prefix| + 1 && IsDigit(seen[m][|Prefix|])
    requires forall j :: 0 <= j < k ==> seen[j + 1] == Candidate(j)
    requires k == |seen| - 1 || seen[k + 1] != Candidate(k)
    ensures Candidate(k) !in seen
  {
    EarlierSlotsDiffer(seen, k);
    if k > 0 {
      assert seen[k] == Candidate(k - 1);
    }
    LaterSlotsDiffer(seen, k);
    assert |Candidate(k)| > |Prefix|;
    forall m | 0 <= m < |seen| ensures seen[m] != Candidate(k) {
    }
  }

  /**
   * When the names are listed once and every prefixed name is the prefix
   * itself or the prefix and a single digit, the allocated name is new.
   */
  lemma FreshWhenSuffixesAreSingleDigits(reply: ListReply)
    requires reply.err.None? && reply.statusCode == StatusOK
    requires Unique(reply.names) && SingleDigitSuffixes(reply.names)
    ensures AllocateName(reply).err.None?
    ensures AllocateName(reply).name !in reply.names
  {
    var names := reply.names;
    if Prefix !in names {
      AllocatesPrefixWhenFree(reply);
      return;
    }
    var seen := Seen(names);
    SeenMembers(names);
    PrefixHeadsSeen(names);
    forall i, j | 0 <= i < j < |seen| ensures seen[i] != seen[j] {
      assert seen[i] in names;
      assert multiset(seen)[seen[i]] <= multiset(names)[seen[i]];
      CountedOnce(seen, i, j);
    }
    forall m | 0 < m < |seen|
      ensures HasPrefix(seen[m], Prefix) && |seen[m]| == |Prefix| + 1 && IsDigit(seen[m][|Prefix|])
    {
      assert seen[m] in seen && seen[m] != seen[0];
    }
    var k := FirstGapFound(seen, 0);
    GapIsFresh(seen, k);
    assert HasPrefix(Candidate(k), Prefix);
  }

  /** Five strings in a known order sort into that order. */
  lemma SortFive(p: string, a: string, b: string, c: string, d: string)
    requires Less(p, a) && Less(a, b) && Less(b, d) && Less(d, c)
    ensures SortStrings([p, a, b, c, d]) == [p, a, b, d, c]
  {
    var sorted := [p, a, b, d, c];
    LessTransitive(p, a, b);
    LessTransitive(p, b, d);
    LessTransitive(p, d, c);
    LessTransitive(a, b, d);
    LessTransitive(a, d, c);
    LessTransitive(b, d, c);
    assert Sorted(sorted);
    assert multiset(sorted) == multiset([p, a, b, c, d]);
    SortStringsSorts([p, a, b, c, d]);
    SortedPermutationUnique(SortStrings([p, a, b, c, d]), sorted);
  }

  lemma CandidateOrder()
    ensures Less(Prefix, Candidate(0)) && Less(Candidate(0), Candidate(1))
    ensures Less(Candidate(1), Candidate(10)) && Less(Candidate(10), Candidate(2))
  {
    assert Decimal(0) == "0" && Decimal(1) == "1" && Decimal(2) == "2" && Decimal(10) == "10";
    PrefixComesFirst(Prefix, Candidate(0));
    LessAfterCommonPrefix(Prefix, "0", "1");
    LessAfterCommonPrefix(Prefix, "1", "10");
    LessAfterCommonPrefix(Prefix, "10", "2");
  }

  /**
   * Any prefixed name that sorts between "…Sample1" and "…Sample2" takes
   * the slot the scan expects to hold "…Sample2": with names ending in 0, 1
   * and 2 in use besides it, the allocator returns "…Sample2", which is
   * taken.
   */
  lemma InterloperHidesTakenName(reply: ListReply, d: string)
    requires reply == ListReply(StatusOK, [Prefix, Candidate(0), Candidate(1), Candidate(2), d], None)
    requires HasPrefix(d, Prefix) && Less(Candidate(1), d) && Less(d, Candidate(2))
    ensures AllocateName(reply) == NameReply(Candidate(2), None)
    ensures Candidate(2) in reply.names
  {
    var seen := [Prefix, Candidate(0), Candidate(1), d, Candidate(2)];
    CandidateOrder();
    SeenOfFive(reply.names, Prefix, Candidate(0), Candidate(1), Candidate(2), d);
    LessIrreflexive(d);
    ScanStopsAtInterloper(d);
  }

  lemma ScanStopsAtInterloper(d: string)
    requires d != Candidate(2)
    ensures FirstGap([Prefix, Candidate(0), Candidate(1), d, Candidate(2)], 0) == Candidate(2)
  {
    var seen := [Prefix, Candidate(0), Candidate(1), d, Candidate(2)];
    assert FirstGap(seen, 2) == Candidate(2);
    assert FirstGap(seen, 1) == Candidate(2);
  }

  lemma SeenOfFive(names: seq<string>, p: string, a: string, b: string, c: string, d: string)
    requires names == [p, a, b, c, d]
    requires HasPrefix(p, Prefix) && HasPrefix(a, Prefix) && HasPrefix(b, Prefix)
    requires HasPrefix(c, Prefix) && HasPrefix(d, Prefix)
    requires Less(p, a) && Less(a, b) && Less(b, d) && Less(d, c)
    ensures Seen(names) == [p, a, b, d, c]
  {
    assert forall x | x in names :: x == p || x == a || x == b || x == c || x == d;
    PrefixedKeepsPrefixed(names);
    SortFive(p, a, b, c, d);
  }

  /**
   * With names ending in 0, 1, 2 and 10 in use, "…Sample10" sorts before
   * "…Sample2", so the allocator returns "…Sample2", which is taken.
   */
  lemma TwoDigitSuffixCollides(reply: ListReply)
    requires reply == ListReply(StatusOK, [Prefix, Candidate(0), Candidate(1), Candidate(2), Candidate(10)], None)
    ensures AllocateName(reply) == NameReply(Candidate(2), None)
    ensures Candidate(2) in reply.names
  {
    CandidateOrder();
    InterloperHidesTakenName(reply, Candidate(10));
  }

  /**
   * A name listed twice also takes a slot: with "…Sample1" listed twice
   * beside the prefix and the names ending in 0 and 2, the allocator
   * returns "…Sample2", which is taken. FreshWhenSuffixesAreSingleDigits
   * needs every name to be listed once.
   */
  lemma RepeatedNameCollides(reply: ListReply)
    requires reply == ListReply(StatusOK, [Prefix, Candidate(0), Candidate(1), Candidate(1), Candidate(2)], None)
    ensures AllocateName(reply) == NameReply(Candidate(2), None)
    ensures Candidate(2) in reply.names
  {
    CandidateOrder();
    LessTransitive(Candidate(1), Candidate(10), Candidate(2));
    SeenOfRepeat(reply.names, Prefix, Candidate(0), Candidate(1), Candidate(2));
    LessIrreflexive(Candidate(1));
    ScanStopsAtRepeat();
  }

  lemma SeenOfRepeat(names: seq<string>, p: string, a: string, b: string, c: string)
    requires names == [p, a, b, b, c]
    requires HasPrefix(p, Prefix) && HasPrefix(a, Prefix) && HasPrefix(b, Prefix) && HasPrefix(c, Prefix)
    requires Less(p, a) && Less(a, b) && Less(b, c)
    ensures Seen(names) == names
  {
    assert forall x | x in names :: x == p || x == a || x == b || x == c;
    PrefixedKeepsPrefixed(names);
    LessTransitive(p, a, b);
    LessTransitive(p, b, c);
    LessTransitive(a, b, c);
    assert Sorted([p, a, b, b, c]);
    SortStringsSorts(names);
    SortedPermutationUnique(SortStrings(names), names);
  }

  lemma ScanStopsAtRepeat()
    requires Candidate(1) != Candidate(2)
    ensures FirstGap([Prefix, Candidate(0), Candidate(1), Candidate(1), Candidate(2)], 0) == Candidate(2)
  {
    var seen := [Prefix, Candidate(0), Candidate(1), Candidate(1), Candidate(2)];
    assert FirstGap(seen, 2) == Candidate(2);
    assert FirstGap(seen, 1) == Candidate(2);
  }
}
