/**
 * Codes the backend mints for people to read: order numbers from a daily
 * counter, and SKUs one above the highest in use, under a unique index.
 */
module Codes {
  import opened Wrappers
  import Calendar

  // ----- decimal text -----

  predicate Digits(s: string) {
    forall i :: 0 <= i < |s| ==> Calendar.IsDigit(s[i])
  }

  /** The decimal text of a number. */
  function Decimal(n: nat): (s: string)
    ensures |s| >= 1
  {
    if n < 10 then [Calendar.Digit(n)] else Decimal(n / 10) + [Calendar.Digit(n % 10)]
  }

  /** The number a row of digits stands for. */
  function Value(s: string): int {
    if s == "" then 0 else 10 * Value(s[..|s| - 1]) + Calendar.DigitValue(s[|s| - 1])
  }

  function Zeros(n: nat): (s: string)
    ensures |s| == n && forall i :: 0 <= i < n ==> s[i] == '0'
  {
    seq(n, i => '0')
  }

  function PadStart(s: string, width: nat): string {
    if |s| >= width then s else Zeros(width - |s|) + s
  }

  lemma {:induction false} DecimalReadsBack(n: nat)
    ensures Digits(Decimal(n)) && Value(Decimal(n)) == n
    decreases n
  {
    if n < 10 {
      assert Decimal(n)[..0] == "";
    } else {
      DecimalReadsBack(n / 10);
      var s := Decimal(n);
      assert s[..|s| - 1] == Decimal(n / 10);
      assert s[|s| - 1] == Calendar.Digit(n % 10);
    }
  }

  lemma {:induction false} LeadingZeros(k: nat, s: string)
    ensures Value(Zeros(k) + s) == Value(s)
    decreases k + |s|
  {
    var t := Zeros(k) + s;
    if s == "" {
      if k > 0 {
        assert t[..k - 1] == Zeros(k - 1) + s;
        LeadingZeros(k - 1, s);
      }
    } else {
      assert t[..|t| - 1] == Zeros(k) + s[..|s| - 1];
      LeadingZeros(k, s[..|s| - 1]);
    }
  }

  /** Padding changes the length and not the number. */
  lemma PaddedReadsBack(n: nat, width: nat)
    ensures Digits(PadStart(Decimal(n), width)) && Value(PadStart(Decimal(n), width)) == n
  {
    DecimalReadsBack(n);
    if |Decimal(n)| < width {
      LeadingZeros(width - |Decimal(n)|, Decimal(n));
    }
  }

  // ----- SKUs -----

  type Sku = string

  /** What JavaScript's Number makes of a text; for digits there is no choice. */
  ghost predicate ReadsDigits(numberOf: string -> Option<int>) {
    forall s :: s != "" && Digits(s) ==> numberOf(s) == Some(Value(s))
  }

  predicate StartsWith(s: string, prefix: string) {
    |prefix| <= |s| && s[..|prefix|] == prefix
  }

  /** The text after the prefix, as String.slice cuts it. */
  function Suffix(s: string, prefix: string): string {
    if |prefix| <= |s| then s[|prefix|..] else ""
  }

  /** The highest integer suffix, at least zero. */
  function Highest(rows: seq<Sku>, prefix: string, numberOf: string -> Option<int>): nat {
    if rows == [] then 0
    else
      var n := |rows| - 1;
      var highest := Highest(rows[..n], prefix, numberOf);
      var suffix := numberOf(Suffix(rows[n], prefix));
      if suffix.Some? && suffix.value > highest then suffix.value else highest
  }

  /** One above the highest, with at least three digits. */
  function NextAutoSku(rows: seq<Sku>, prefix: string, numberOf: string -> Option<int>): Sku {
    prefix + PadStart(Decimal(Highest(rows, prefix, numberOf) + 1), 3)
  }

  lemma {:induction false} HighestIsAnUpperBound(rows: seq<Sku>, prefix: string, numberOf: string -> Option<int>,
                                                 i: nat)
    requires i < |rows| && numberOf(Suffix(rows[i], prefix)).Some?
    ensures numberOf(Suffix(rows[i], prefix)).value <= Highest(rows, prefix, numberOf)
    decreases |rows|
  {
    if i < |rows| - 1 {
      HighestIsAnUpperBound(rows[..|rows| - 1], prefix, numberOf, i);
    }
  }

  /** The rows of a table that the lookup by prefix returns, in some order. */
  ghost predicate Lists(rows: seq<Sku>, table: set<Sku>, prefix: string) {
    && (forall i :: 0 <= i < |rows| ==> StartsWith(rows[i], prefix))
    && (forall sku :: sku in rows <==> sku in table && StartsWith(sku, prefix))
  }

  /** The minted code is free in the table that was read, whatever else its rows look like. */
  lemma MintedSkuIsFree(rows: seq<Sku>, table: set<Sku>, prefix: string, numberOf: string -> Option<int>)
    requires Lists(rows, table, prefix) && ReadsDigits(numberOf)
    ensures NextAutoSku(rows, prefix, numberOf) !in table
  {
    var next := Highest(rows, prefix, numberOf) + 1;
    var sku, digits := NextAutoSku(rows, prefix, numberOf), PadStart(Decimal(next), 3);
    PaddedReadsBack(next, 3);
    assert Suffix(sku, prefix) == digits;
    if sku in table {
      assert StartsWith(sku, prefix);
      var i :| 0 <= i < |rows| && rows[i] == sku;
      HighestIsAnUpperBound(rows, prefix, numberOf, i);
    }
  }

  /** Somebody else's write to the brand's SKUs. */
  datatype Change = Insert(sku: Sku) | Remove(sku: Sku)

  function Changed(table: set<Sku>, changes: seq<Change>): set<Sku>
    decreases |changes|
  {
    if changes == [] then table
    else
      var before := Changed(table, changes[..|changes| - 1]);
      match changes[|changes| - 1]
      case Insert(sku) => before + {sku}
      case Remove(sku) => before - {sku}
  }

  lemma {:induction false} AppearedMeansInserted(table: set<Sku>, changes: seq<Change>, sku: Sku)
    requires sku !in table && sku in Changed(table, changes)
    ensures Insert(sku) in changes
    decreases |changes|
  {
    var last := changes[|changes| - 1];
    assert last in changes;
    if last != Insert(sku) {
      AppearedMeansInserted(table, changes[..|changes| - 1], sku);
    }
  }

  datatype Minting = Created(sku: Sku) | SkuConflict | SlugConflict

  /** An attempt fails only because somebody else inserted this very code between its read and its insert. */
  lemma LostAttemptMeansAnotherGotIt(rows: seq<Sku>, table: set<Sku>, prefix: string, numberOf: string -> Option<int>,
                                     changes: seq<Change>)
    requires Lists(rows, table, prefix) && ReadsDigits(numberOf)
    ensures NextAutoSku(rows, prefix, numberOf) in Changed(table, changes) ==>
        Insert(NextAutoSku(rows, prefix, numberOf)) in changes
  {
    MintedSkuIsFree(rows, table, prefix, numberOf);
    if NextAutoSku(rows, prefix, numberOf) in Changed(table, changes) {
      AppearedMeansInserted(table, changes, NextAutoSku(rows, prefix, numberOf));
    }
  }

  /** Somebody else inserted a code with this prefix. */
  predicate SomebodyInserted(changes: seq<Change>, prefix: string) {
    exists i :: 0 <= i < |changes| && changes[i].Insert? && StartsWith(changes[i].sku, prefix)
  }

  /** The answer to an insert and the table after it: a new code was added, or nothing was. */
  predicate Written(before: set<Sku>, answer: Minting, after: set<Sku>) {
    if answer.Created? then answer.sku !in before && after == before + {answer.sku} else after == before
  }

  class MenuTable {
    var skus: set<Sku>

    constructor ()
      ensures skus == {}
    {
      skus := {};
    }

    /** Everybody else's writes, one after another. */
    method Interfere(changes: seq<Change>)
      modifies this
      ensures skus == Changed(old(skus), changes)
    {
      var i := 0;
      while i < |changes|
        invariant i <= |changes|
        invariant skus == Changed(old(skus), changes[..i])
      {
        assert changes[..i + 1][..i] == changes[..i];
        match changes[i] {
          case Insert(sku) => skus := skus + {sku};
          case Remove(sku) => skus := skus - {sku};
        }
        i := i + 1;
      }
      assert changes[..i] == changes;
    }

    /** The rows with the prefix, in some order. */
    method ListAutoSkus(prefix: string) returns (rows: seq<Sku>)
      ensures Lists(rows, skus, prefix)
    {
      rows := [];
      var left := skus;
      while left != {}
        invariant left <= skus
        invariant forall i :: 0 <= i < |rows| ==> StartsWith(rows[i], prefix)
        invariant forall sku :: sku in rows <==> sku in skus - left && StartsWith(sku, prefix)
        decreases |left|
      {
        var sku :| sku in left;
        if StartsWith(sku, prefix) {
          rows := rows + [sku];
        }
        left := left - {sku};
      }
    }

    /** The code of an attempt, with other writes between the read and the insert. */
    method MintSku(prefix: string, numberOf: string -> Option<int>, others: seq<Change>) returns (sku: Sku)
      requires ReadsDigits(numberOf)
      modifies this
      ensures skus == Changed(old(skus), others)
      ensures sku in skus ==> SomebodyInserted(others, prefix)
    {
      var rows := ListAutoSkus(prefix);
      sku := NextAutoSku(rows, prefix, numberOf);
      LostAttemptMeansAnotherGotIt(rows, skus, prefix, numberOf, others);
      Interfere(others);
    }

    /** The insert under the two unique indexes. */
    method InsertItem(sku: Sku, slugTaken: bool) returns (answer: Minting)
      modifies this
      ensures answer == if slugTaken then SlugConflict else if sku in old(skus) then SkuConflict else Created(sku)
      ensures Written(old(skus), answer, skus)
    {
      if slugTaken {
        return SlugConflict;
      }
      if sku in skus {
        return SkuConflict;
      }
      skus := skus + {sku};
      return Created(sku);
    }

    /**
     * The attempts with minted codes: the code of each was free when read, and
     * a lost one had been inserted by somebody else meanwhile.
     */
    method CreateMinted(prefix: string, numberOf: string -> Option<int>, others: seq<seq<Change>>, slugTaken: seq<bool>)
      returns (answer: Minting, tries: nat)
      requires |others| == |slugTaken| == 3 && ReadsDigits(numberOf)
      modifies this
      ensures 1 <= tries <= 3
      ensures answer.SlugConflict? <==> slugTaken[tries - 1]
      ensures forall n :: 0 <= n < tries - 1 ==> !slugTaken[n]
      ensures Written(Changed(old(skus), Flat(others[..tries])), answer, skus)
      ensures answer.SkuConflict? ==>
        && tries == 3
        && forall n :: 0 <= n < 3 ==> SomebodyInserted(others[n], prefix)
    {
      tries, answer := 0, SkuConflict;
      while tries < 3 && answer.SkuConflict?
        invariant tries <= 3 && (tries == 0 ==> answer.SkuConflict?)
        invariant Written(Changed(old(skus), Flat(others[..tries])), answer, skus)
        invariant forall n :: 0 <= n < tries - 1 ==> !slugTaken[n]
        invariant tries > 0 ==> (answer.SlugConflict? <==> slugTaken[tries - 1])
        invariant answer.SkuConflict? ==> forall n :: 0 <= n < tries ==> SomebodyInserted(others[n], prefix)
        decreases 3 - tries
      {
        var sku := MintSku(prefix, numberOf, others[tries]);
        FlatStep(old(skus), others, tries);
        answer := InsertItem(sku, slugTaken[tries]);
        tries := tries + 1;
      }
    }

    /**
     * Creates a dish under its own SKU in one attempt, or under a minted one in
     * up to three. `slugTaken` says which insert the index on slugs refuses;
     * that ends the request.
     */
    method CreateMenuItem(given: Option<Sku>, prefix: string, numberOf: string -> Option<int>, others: seq<seq<Change>>,
                          slugTaken: seq<bool>)
      returns (answer: Minting, tries: nat)
      requires |others| == |slugTaken| == 3 && ReadsDigits(numberOf)
      modifies this
      ensures 1 <= tries <= 3
      ensures answer.SlugConflict? <==> slugTaken[tries - 1]
      ensures forall n :: 0 <= n < tries - 1 ==> !slugTaken[n]
      ensures Written(Changed(old(skus), Flat(others[..tries])), answer, skus)
      ensures answer.Created? && given.Some? ==> answer.sku == given.value
      ensures given.Some? ==> tries == 1 && (answer.SkuConflict? ==> given.value in skus)
      ensures given.None? && answer.SkuConflict? ==>
        && tries == 3
        && forall n :: 0 <= n < 3 ==> SomebodyInserted(others[n], prefix)
    {
      if given.None? {
        answer, tries := CreateMinted(prefix, numberOf, others, slugTaken);
        return;
      }
      FlatOfOne(others);
      Interfere(others[0]);
      answer := InsertItem(given.value, slugTaken[0]);
      tries := 1;
    }
  }

  function Flat(runs: seq<seq<Change>>): seq<Change> {
    if runs == [] then [] else Flat(runs[..|runs| - 1]) + runs[|runs| - 1]
  }

  lemma FlatStep(table: set<Sku>, others: seq<seq<Change>>, n: nat)
    requires n < |others|
    ensures Changed(table, Flat(others[..n + 1])) == Changed(Changed(table, Flat(others[..n])), others[n])
  {
    assert others[..n + 1][..n] == others[..n];
    ChangedConcat(table, Flat(others[..n]), others[n]);
  }

  lemma FlatOfOne(others: seq<seq<Change>>)
    requires |others| >= 1
    ensures Flat(others[..1]) == others[0]
  {
    assert others[..1][..0] == [];
  }

  lemma {:induction false} ChangedConcat(table: set<Sku>, before: seq<Change>, after: seq<Change>)
    ensures Changed(table, before + after) == Changed(Changed(table, before), after)
    decreases |after|
  {
    if after == [] {
      assert before + after == before;
    } else {
      var n := |after| - 1;
      assert (before + after)[..|before| + n] == before + after[..n];
      ChangedConcat(table, before, after[..n]);
    }
  }
}
