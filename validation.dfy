/** The ORM's column validators as the models declare them (`allowNull`, `notEmpty`, `len`,
    `isInt`, enumerations) and unique columns over a table of rows. */
module Validation {
  import opened Js

  /** The characters `notEmpty` treats as blank (`/^[\s\t\r\n]*$/`, restricted to ASCII whitespace). */
  predicate IsSpace(c: char) {
    c == ' ' || c == '\t' || c == '\n' || c == '\r' || c == '\U{000B}' || c == '\U{000C}'
  }

  /** `notEmpty`: some character is not whitespace. */
  predicate NotEmpty(s: string) {
    exists i :: 0 <= i < |s| && !IsSpace(s[i])
  }

  /** `len: [lo, hi]` */
  predicate LenWithin(s: string, lo: nat, hi: nat) {
    lo <= |s| <= hi
  }

  /** A column whose value is absent: null or undefined. */
  predicate Absent(v: Value) {
    v == Null || v == Undefined
  }

  /** A column declared `allowNull: false` holding a string that passes `check`. */
  predicate RequiredString(v: Value, check: string -> bool) {
    v.Str? && check(v.s)
  }

  /** A nullable column: absent, or a string that passes `check` (validators skip absent values). */
  predicate OptionalString(v: Value, check: string -> bool) {
    Absent(v) || (v.Str? && check(v.s))
  }

  /** `isInt` on a column declared `allowNull: false`. */
  predicate RequiredInt(v: Value) {
    v.Num?
  }

  /** A column holding a non-blank string of at most `hi` characters. */
  predicate NonEmptyUpTo(v: Value, hi: nat) {
    RequiredString(v, s => NotEmpty(s) && LenWithin(s, 0, hi))
  }

  /** No two rows share a value in column `col` (absent values do not clash). */
  ghost predicate UniqueColumn(rows: seq<Record>, col: string) {
    forall i, j :: 0 <= i < j < |rows| && !Absent(Get(rows[i], col)) ==> Get(rows[i], col) != Get(rows[j], col)
  }

  /** Some row already holds `v` in column `col`. */
  function Clashes(rows: seq<Record>, col: string, v: Value): (b: bool)
    ensures b <==> exists i :: 0 <= i < |rows| && Get(rows[i], col) == v
  {
    if rows == [] then false
    else Get(rows[0], col) == v || Clashes(rows[1..], col, v)
  }

  /** An insert under unique constraints on `cols`: `None` (a unique-constraint error) when a present
      value of the new row clashes with a row already there, else the rows with the new one appended. */
  function InsertUnique(rows: seq<Record>, r: Record, cols: set<string>): (out: Option<seq<Record>>)
    ensures out.None? <==> exists c :: c in cols && !Absent(Get(r, c)) && Clashes(rows, c, Get(r, c))
    ensures out.Some? ==> out.value == rows + [r]
  {
    if exists c :: c in cols && !Absent(Get(r, c)) && Clashes(rows, c, Get(r, c)) then None
    else Some(rows + [r])
  }

  /** Inserting under the constraints keeps each constrained column unique. */
  lemma {:induction false} InsertKeepsUnique(rows: seq<Record>, r: Record, cols: set<string>, col: string)
    requires col in cols && UniqueColumn(rows, col)
    requires InsertUnique(rows, r, cols).Some?
    ensures UniqueColumn(InsertUnique(rows, r, cols).value, col)
  {
    var out := rows + [r];
    forall i, j | 0 <= i < j < |out| && !Absent(Get(out[i], col))
      ensures Get(out[i], col) != Get(out[j], col)
    {
      if j == |rows| {
        assert out[i] == rows[i];
        assert !Clashes(rows, col, Get(r, col)) || Absent(Get(r, col));
      }
    }
  }

  /** `save()` after assigning `value` to `column`: an unchanged value leaves nothing to save; a
      changed one must pass the column's validators (`valid`), otherwise the save fails with a
      validation error, here `None`. */
  function SaveColumn(row: Record, column: string, value: Value, valid: bool): (saved: Option<Record>)
    ensures value == Get(row, column) ==> saved == Some(row)
    ensures value != Get(row, column) ==> (saved.Some? <==> valid) && (saved.Some? ==> saved.value == row[column := value])
    ensures saved.Some? ==> Get(saved.value, column) == value
    ensures saved.Some? ==> forall k :: k != column ==> Get(saved.value, k) == Get(row, k)
    ensures saved.Some? && saved.value != row ==> valid
  {
    if value == Get(row, column) then Some(row)
    else if valid then Some(row[column := value])
    else None
  }
}
