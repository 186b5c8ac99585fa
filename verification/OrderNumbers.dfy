/**
 * Order numbers: a counter per branch and UTC day, bumped in one statement,
 * and the text made of the branch, the day and the count.
 */
module OrderNumbers {
  import opened Codes
  import Calendar

  type BranchId = string

  datatype Slot = Slot(branch: BranchId, day: int)

  type Counters = map<Slot, nat>

  /** What one create was given. */
  datatype Minted = Minted(slot: Slot, sequence: nat)

  function LastValue(counters: Counters, slot: Slot): nat {
    if slot in counters then counters[slot] else 0
  }

  /** Insert 1, or add one to what is there. */
  function Bumped(counters: Counters, slot: Slot): Counters {
    counters[slot := LastValue(counters, slot) + 1]
  }

  function After(counters: Counters, slots: seq<Slot>): Counters {
    if slots == [] then counters else Bumped(After(counters, slots[..|slots| - 1]), slots[|slots| - 1])
  }

  /** The numbers given out in a run, in order; a create that rolls back keeps its number burned. */
  function Mints(counters: Counters, slots: seq<Slot>): (minted: seq<Minted>)
    ensures |minted| == |slots|
  {
    if slots == [] then []
    else
      var before, slot := slots[..|slots| - 1], slots[|slots| - 1];
      Mints(counters, before) + [Minted(slot, LastValue(After(counters, before), slot) + 1)]
  }

  function Count(slots: seq<Slot>, slot: Slot): nat {
    if slots == [] then 0 else Count(slots[..|slots| - 1], slot) + if slots[|slots| - 1] == slot then 1 else 0
  }

  lemma {:induction false} CounterCounts(counters: Counters, slots: seq<Slot>, slot: Slot)
    ensures LastValue(After(counters, slots), slot) == LastValue(counters, slot) + Count(slots, slot)
    decreases |slots|
  {
    if slots != [] {
      CounterCounts(counters, slots[..|slots| - 1], slot);
    }
  }

  lemma {:induction false} CountGrows(slots: seq<Slot>, n: nat, slot: Slot)
    requires n <= |slots|
    ensures Count(slots[..n], slot) <= Count(slots, slot)
    decreases |slots| - n
  {
    if n < |slots| {
      CountGrows(slots, n + 1, slot);
      assert slots[..n + 1][..n] == slots[..n];
    } else {
      assert slots[..n] == slots;
    }
  }

  /** Each create of a branch-day gets the next number: the k-th one gets the k-th. */
  lemma {:induction false} NumbersAreConsecutive(counters: Counters, slots: seq<Slot>, i: nat)
    requires i < |slots|
    ensures Mints(counters, slots)[i] ==
        Minted(slots[i], LastValue(counters, slots[i]) + Count(slots[..i], slots[i]) + 1)
    decreases |slots|
  {
    var n := |slots| - 1;
    if i < n {
      NumbersAreConsecutive(counters, slots[..n], i);
      assert slots[..n][..i] == slots[..i];
    } else {
      CounterCounts(counters, slots[..n], slots[n]);
    }
  }

  /** No two creates of a run get the same number on the same branch-day. */
  lemma NumbersAreDistinct(counters: Counters, slots: seq<Slot>, i: nat, j: nat)
    requires i < j < |slots|
    ensures Mints(counters, slots)[i] != Mints(counters, slots)[j]
  {
    NumbersAreConsecutive(counters, slots, i);
    NumbersAreConsecutive(counters, slots, j);
    if slots[i] == slots[j] {
      assert slots[..i + 1][..i] == slots[..i];
      assert slots[..j][..i + 1] == slots[..i + 1];
      CountGrows(slots[..j], i + 1, slots[i]);
    }
  }

  // ----- the text -----

  function Upper(c: char): char {
    if 'a' <= c <= 'z' then (c as int - 32) as char else c
  }

  /** The first four characters of a UUID are hexadecimal digits in lower case. */
  predicate StartsLikeUuid(branch: BranchId) {
    |branch| >= 4 && forall i :: 0 <= i < 4 ==> '0' <= branch[i] <= '9' || 'a' <= branch[i] <= 'f'
  }

  function Prefix(branch: BranchId): (s: string)
    requires |branch| >= 4
    ensures |s| == 4
  {
    [Upper(branch[0]), Upper(branch[1]), Upper(branch[2]), Upper(branch[3])]
  }

  /** Year, month and date run together; the year is not padded. */
  function DayText(d: Calendar.Date): string
    requires Calendar.Valid(d) && d.year >= 0
  {
    Decimal(d.year) + (PadStart(Decimal(d.month + 1), 2) + PadStart(Decimal(d.date), 2))
  }

  function OrderNumber(branch: BranchId, d: Calendar.Date, sequence: nat): string
    requires |branch| >= 4 && Calendar.Valid(d) && d.year >= 0
  {
    Prefix(branch) + ("-" + (DayText(d) + ("-" + PadStart(Decimal(sequence), 4))))
  }

  lemma {:induction false} DecimalLength(n: nat, width: nat)
    requires width > 0
    ensures |Decimal(n)| <= width <==> n < Power(width)
    decreases width
  {
    if width > 1 && n >= 10 {
      DecimalLength(n / 10, width - 1);
    } else if n >= 10 {
      assert Power(1) == 10 * Power(0);
    } else {
      TenAtLeast(width);
    }
  }

  function Power(width: nat): nat {
    if width == 0 then 1 else 10 * Power(width - 1)
  }

  lemma {:induction false} TenAtLeast(width: nat)
    requires width > 0
    ensures Power(width) >= 10
    decreases width
  {
    if width > 1 {
      TenAtLeast(width - 1);
    } else {
      assert Power(1) == 10 * Power(0);
    }
  }

  lemma Powers()
    ensures Power(1) == 10 && Power(2) == 100 && Power(3) == 1000 && Power(4) == 10000
  {
  }

  lemma TwoDigits(n: nat)
    requires n < 100
    ensures |PadStart(Decimal(n), 2)| == 2
  {
    Powers();
    DecimalLength(n, 2);
  }

  lemma FourDigits(y: nat)
    requires 1000 <= y <= 9999
    ensures |Decimal(y)| == 4
  {
    Powers();
    DecimalLength(y, 4);
    DecimalLength(y, 3);
  }

  /** The text of a day, of the years 1000 to 9999, reads back. */
  lemma DayTextIsInjective(d: Calendar.Date, e: Calendar.Date)
    requires Calendar.Valid(d) && Calendar.Valid(e) && 1000 <= d.year <= 9999 && 1000 <= e.year <= 9999
    requires DayText(d) == DayText(e)
    ensures d == e
  {
    DayTextParts(d);
    DayTextParts(e);
    DecimalReadsBack(d.year);
    DecimalReadsBack(e.year);
    PaddedReadsBack(d.month + 1, 2);
    PaddedReadsBack(e.month + 1, 2);
    PaddedReadsBack(d.date, 2);
    PaddedReadsBack(e.date, 2);
  }

  lemma DayTextParts(d: Calendar.Date)
    requires Calendar.Valid(d) && 1000 <= d.year <= 9999
    ensures |DayText(d)| == 8
    ensures DayText(d)[..4] == Decimal(d.year)
    ensures DayText(d)[4..6] == PadStart(Decimal(d.month + 1), 2)
    ensures DayText(d)[6..] == PadStart(Decimal(d.date), 2)
  {
    Calendar.ShortMonths(d);
    FourDigits(d.year);
    TwoDigits(d.month + 1);
    TwoDigits(d.date);
    var y, m, k := Decimal(d.year), PadStart(Decimal(d.month + 1), 2), PadStart(Decimal(d.date), 2);
    assert DayText(d) == y + (m + k);
    assert (y + (m + k))[4..6] == m;
    assert (y + (m + k))[6..] == k;
  }

  lemma NumberParts(branch: BranchId, d: Calendar.Date, sequence: nat)
    requires |branch| >= 4 && Calendar.Valid(d) && 1000 <= d.year <= 9999
    ensures var s := OrderNumber(branch, d, sequence);
            |s| >= 14 && s[..4] == Prefix(branch) && s[5..13] == DayText(d) && s[14..] == PadStart(Decimal(sequence), 4)
  {
    DayTextParts(d);
    var p, t, q := Prefix(branch), DayText(d), PadStart(Decimal(sequence), 4);
    var s := OrderNumber(branch, d, sequence);
    assert s == p + ("-" + (t + ("-" + q)));
    assert s[..4] == p;
    assert s[5..] == t + ("-" + q);
    assert s[5..][..8] == t;
    assert s[5..][9..] == q;
  }

  lemma PrefixIsInjective(a: BranchId, b: BranchId)
    requires StartsLikeUuid(a) && StartsLikeUuid(b)
    ensures Prefix(a) == Prefix(b) <==> a[..4] == b[..4]
  {
    if Prefix(a) == Prefix(b) {
      forall i | 0 <= i < 4
        ensures a[i] == b[i]
      {
        assert Prefix(a)[i] == Upper(a[i]) && Prefix(b)[i] == Upper(b[i]);
      }
      assert a[..4] == b[..4];
    }
  }

  /**
   * Two order numbers are the same text exactly when the branches agree in
   * their first four characters and day and count are the same.
   */
  lemma NumbersCollideExactly(a: BranchId, d: Calendar.Date, m: nat, b: BranchId, e: Calendar.Date, n: nat)
    requires StartsLikeUuid(a) && StartsLikeUuid(b)
    requires Calendar.Valid(d) && Calendar.Valid(e) && 1000 <= d.year <= 9999 && 1000 <= e.year <= 9999
    ensures OrderNumber(a, d, m) == OrderNumber(b, e, n) <==> a[..4] == b[..4] && d == e && m == n
  {
    PrefixIsInjective(a, b);
    if OrderNumber(a, d, m) == OrderNumber(b, e, n) {
      NumberParts(a, d, m);
      NumberParts(b, e, n);
      DayTextIsInjective(d, e);
      PaddedReadsBack(m, 4);
      PaddedReadsBack(n, 4);
    }
  }

  /**
   * The first orders of a day of two branches that share four characters get one
   * number, which the unique index refuses.
   */
  lemma NamesakeBranchesCollide(a: BranchId, b: BranchId, day: int)
    requires StartsLikeUuid(a) && StartsLikeUuid(b) && a != b && a[..4] == b[..4]
    requires 1000 <= Calendar.DateOf(day).year <= 9999
    ensures var minted := Mints(map[], [Slot(a, day), Slot(b, day)]);
            && minted == [Minted(Slot(a, day), 1), Minted(Slot(b, day), 1)]
            && Calendar.Valid(Calendar.DateOf(day))
            && OrderNumber(a, Calendar.DateOf(day), 1) == OrderNumber(b, Calendar.DateOf(day), 1)
  {
    var slots := [Slot(a, day), Slot(b, day)];
    NumbersAreConsecutive(map[], slots, 0);
    NumbersAreConsecutive(map[], slots, 1);
    assert slots[..0] == [] && slots[..1] == [Slot(a, day)] && slots[..1][..0] == [];
    Calendar.DateOfDay(day);
    PrefixIsInjective(a, b);
  }

  /** The counters' table. */
  class SequenceTable {
    var counters: Counters

    constructor ()
      ensures counters == map[]
    {
      counters := map[];
    }

    /** One atomic statement on the counter of the branch's UTC day. */
    method NextOrderSequence(branch: BranchId, now: int) returns (sequence: nat, day: int)
      modifies this
      ensures day == now / Calendar.DAY
      ensures counters == Bumped(old(counters), Slot(branch, day))
      ensures sequence == LastValue(old(counters), Slot(branch, day)) + 1 == LastValue(counters, Slot(branch, day))
    {
      day := now / Calendar.DAY;
      var slot := Slot(branch, day);
      if slot in counters {
        counters := counters[slot := counters[slot] + 1];
      } else {
        counters := counters[slot := 1];
      }
      sequence := counters[slot];
    }
  }
}
