/**
 * What one comparison of the filter operator can tell about records: the tests no record fails and
 * the tests no stored value meets. A counterexample is always a record whose payload decodes.
 */
module Comparisons {
  import opened Plans
  import opened Execution
  import opened StringOrder

  predicate Ordering(op: BinaryOp) { op.Eq? || op.Ne? || op.Lt? || op.Le? || op.Gt? || op.Ge? }

  predicate UserColumn(c: string) { c != "_collection" && c != "_tenant" && c != "_confidence" }

  /** The literals a payload field can be compared with. */
  predicate Comparable(e: Expr) {
    e.Lit? && (e.lit.Int? || e.lit.Float? || e.lit.Str? || e.lit.Bool?)
  }

  /** Some stored value meets the comparison: nothing comes before the empty string. */
  predicate Matches(op: BinaryOp, e: Expr) {
    Comparable(e) && !(op == Lt && e.lit == Str(""))
  }

  /** No tenant number is within the comparison's tolerance. */
  predicate NoTenantNear(f: real) {
    f <= -F64_EPSILON || (f > 0.0 && f - f.Floor as real >= F64_EPSILON && f.Floor as real + 1.0 - f >= F64_EPSILON)
  }

  /** The column tests no record can fail. */
  predicate ColumnNeverFails(col: string, op: BinaryOp, lit: Expr) {
    if UserColumn(col) then false
    else if !Ordering(op) then true
    else if col == "_collection" then !(lit.Lit? && lit.lit.Str?) || (op == Ge && lit.lit.s == [])
    else if ExtractFloat(lit).None? then true
    else
      var f := ExtractFloat(lit).value;
      col == "_tenant" && ((op == Ne && NoTenantNear(f)) || (op == Gt && f < 0.0) || (op == Ge && f <= 0.0))
  }

  /** The tests of two operands no record can fail. */
  predicate NeverFails(op: BinaryOp, l: Expr, r: Expr) {
    if l.Column? then ColumnNeverFails(l.name, op, r)
    else if r.Column? then ColumnNeverFails(r.name, FlipOp(op), l)
    else true
  }

  function BaseRow(): Row { Row("", "", 0, 0.0, Some(map[]), map[]) }

  lemma {:induction false} CompareSelf(s: string)
    ensures CompareStrings(s, s) == 0
  {
    if s != [] {
      CompareSelf(s[1..]);
    }
  }

  lemma {:induction false} LongerIsGreater(s: string)
    ensures CompareStrings(s + ['a'], s) == 1
  {
    if s != [] {
      assert (s + ['a'])[1..] == s[1..] + ['a'];
      LongerIsGreater(s[1..]);
    }
  }

  // ---- Payload columns -------------------------------------------------------

  /** A number the comparison accepts. */
  function NumberFor(op: BinaryOp, f: real): real {
    if op == Lt then f - 1.0 else if op == Ne || op == Gt then f + 1.0 else f
  }

  function StringFor(op: BinaryOp, s: string): string {
    if op == Lt then [] else if op == Ne || op == Gt then s + ['a'] else s
  }

  /** A record whose field `c` meets the comparison. */
  function Meeting(c: string, op: BinaryOp, lit: Expr): Row
    requires Comparable(lit)
  {
    var v := match lit.lit
      case Str(s) => DStr(StringFor(op, s))
      case Bool(b) => DBool(if op == Ne then !b else b)
      case _ => if ExtractFloat(lit).Some? then DFloat(NumberFor(op, ExtractFloat(lit).value)) else DNull;
    BaseRow().(data := Some(map[c := v]))
  }

  lemma NumberMeets(op: BinaryOp, f: real)
    ensures CompareReal(NumberFor(op, f), op, f, F64_EPSILON)
  {
  }

  lemma StringMeets(op: BinaryOp, s: string)
    requires !(op == Lt && s == [])
    ensures CompareStr(StringFor(op, s), op, s)
  {
    CompareSelf(s);
    LongerIsGreater(s);
  }

  lemma MeetingPasses(c: string, op: BinaryOp, lit: Expr)
    requires UserColumn(c) && Matches(op, lit)
    ensures EvalColumn(c, op, lit, Meeting(c, op, lit))
  {
    match lit.lit
    case Str(s) => StringMeets(op, s);
    case Bool(_) =>
    case Int(i) => NumberMeets(op, i as real);
    case Float(f) => NumberMeets(op, f);
  }

  lemma UnmatchedFails(c: string, op: BinaryOp, e: Expr, row: Row)
    requires UserColumn(c) && row.data.Some? && !Matches(op, e)
    ensures !EvalColumn(c, op, e, row)
  {
  }

  // ---- Columns every record has ----------------------------------------------

  lemma CollectionFails(op: BinaryOp, s: string) returns (row: Row)
    requires Ordering(op) && !(op == Ge && s == [])
    ensures row.data.Some? && !CompareStr(row.collection, op, s)
  {
    CompareSelf(s);
    LongerIsGreater(s);
    row := BaseRow().(collection := if op == Le || op == Eq then s + ['a'] else if op == Ge then [] else s);
  }

  lemma TenantAbove(f: real) returns (t: nat)
    ensures t as real >= f
  {
    t := if f <= 0.0 then 0 else f.Floor + 1;
  }

  lemma TenantNear(f: real) returns (t: nat)
    requires !NoTenantNear(f)
    ensures Abs(t as real - f) < F64_EPSILON
  {
    t := if f <= 0.0 then 0 else if f - f.Floor as real < F64_EPSILON then f.Floor else f.Floor + 1;
  }

  lemma NoneNear(t: nat, f: real)
    requires NoTenantNear(f)
    ensures Abs(t as real - f) >= F64_EPSILON
  {
    if f > 0.0 {
      assert t <= f.Floor || t >= f.Floor + 1;
    }
  }

  lemma TenantFails(op: BinaryOp, f: real) returns (row: Row)
    requires Ordering(op) && !(op == Ne && NoTenantNear(f)) && !(op == Gt && f < 0.0) && !(op == Ge && f <= 0.0)
    ensures row.data.Some? && !CompareReal(row.tenant as real, op, f, F64_EPSILON)
  {
    var t: nat := 0;
    if op == Ne {
      t := TenantNear(f);
    } else if op == Eq || op == Lt || op == Le {
      t := TenantAbove(f + 1.0);
    }
    row := BaseRow().(tenant := t);
  }

  lemma ConfidenceFails(op: BinaryOp, f: real) returns (row: Row)
    requires Ordering(op)
    ensures row.data.Some? && !CompareReal(row.confidence, op, f, F32_EPSILON)
  {
    row := BaseRow().(confidence := if op == Ne then f else if op == Gt || op == Ge then f - 1.0 else f + 1.0);
  }

  /** A record that fails a column test which is not among the harmless ones. */
  lemma ColumnFails(col: string, op: BinaryOp, lit: Expr) returns (row: Row)
    requires !ColumnNeverFails(col, op, lit)
    ensures row.data.Some? && !EvalColumn(col, op, lit, row)
  {
    if col == "_collection" {
      row := CollectionFails(op, lit.lit.s);
    } else if col == "_tenant" {
      row := TenantFails(op, ExtractFloat(lit).value);
    } else if col == "_confidence" {
      row := ConfidenceFails(op, ExtractFloat(lit).value);
    } else {
      row := BaseRow();
    }
  }

  lemma ColumnPasses(col: string, op: BinaryOp, lit: Expr, row: Row)
    requires ColumnNeverFails(col, op, lit)
    ensures EvalColumn(col, op, lit, row)
  {
    if col == "_collection" && lit.Lit? && lit.lit.Str? && op == Ge {
      assert CompareStrings(row.collection, []) >= 0;
    } else if col == "_tenant" && op == Ne && ExtractFloat(lit).Some? {
      NoneNear(row.tenant, ExtractFloat(lit).value);
    }
  }

  // ---- Two operands ----------------------------------------------------------

  /** The swapped confidence test compares the other way round than a swapped column test. */
  lemma BinaryPasses(op: BinaryOp, l: Expr, r: Expr, row: Row)
    requires NeverFails(op, l, r)
    ensures EvalBinary(op, l, r, row)
  {
    if l.Column? {
      ColumnPasses(l.name, op, r, row);
    } else if r.Column? {
      ColumnPasses(r.name, FlipOp(op), l, row);
    }
  }

  lemma SwappedConfidenceFails(op: BinaryOp, f: real) returns (row: Row)
    requires Ordering(op)
    ensures row.data.Some? && !CompareReal(f, FlipOp(op), row.confidence, F32_EPSILON)
  {
    row := BaseRow().(confidence := if op == Ne then f else if op == Gt || op == Ge then f - 1.0 else f + 1.0);
  }

  lemma BinaryFails(op: BinaryOp, l: Expr, r: Expr) returns (row: Row)
    requires !NeverFails(op, l, r)
    ensures row.data.Some? && !EvalBinary(op, l, r, row)
  {
    if l.Column? {
      row := ColumnFails(l.name, op, r);
    } else if r.name == "_confidence" && ExtractFloat(l).Some? {
      row := SwappedConfidenceFails(op, ExtractFloat(l).value);
    } else {
      row := ColumnFails(r.name, FlipOp(op), l);
    }
  }

  /** Exactly when every record passes a comparison: a check on its operator and operands. */
  lemma NeverFailsExact(op: BinaryOp, l: Expr, r: Expr)
    ensures (forall row :: EvalBinary(op, l, r, row)) <==> NeverFails(op, l, r)
  {
    if NeverFails(op, l, r) {
      forall row ensures EvalBinary(op, l, r, row) {
        BinaryPasses(op, l, r, row);
      }
    } else {
      var row := BinaryFails(op, l, r);
      assert !EvalBinary(op, l, r, row);
    }
  }
}
