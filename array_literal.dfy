/**
 * The PostgreSQL array literal that `CreateUser` builds from a biometric
 * vector: every element formatted with `%f`, the results joined with
 * commas and wrapped in braces.
 */
module ArrayLiteral {
  import opened Wrappers

  /** `strings.Join(fields, ",")`. */
  function Join(fields: seq<string>): string
  {
    if |fields| == 0 then ""
    else if |fields| == 1 then fields[0]
    else fields[0] + "," + Join(fields[1..])
  }

  /** `"{" + strings.Join(fields, ",") + "}"`. */
  function Literal(fields: seq<string>): string
  {
    "{" + Join(fields) + "}"
  }

  /** The per-element strings, `fmt.Sprintf("%f", v)` being `format`. */
  function Fields(v: seq<real>, format: real -> string): (fields: seq<string>)
    ensures |fields| == |v|
    ensures forall i | 0 <= i < |v| :: fields[i] == format(v[i])
  {
    seq(|v|, i requires 0 <= i < |v| => format(v[i]))
  }

  /** Cuts a string at every comma. */
  function Split(s: string): (parts: seq<string>)
    ensures |parts| >= 1
  {
    if s == [] then [""]
    else
      var rest := Split(s[1..]);
      if s[0] == ',' then [""] + rest else [[s[0]] + rest[0]] + rest[1..]
  }

  /** Reads a brace-wrapped, comma-separated list back into its fields. */
  function ParseLiteral(s: string): Option<seq<string>>
  {
    if |s| >= 2 && s[0] == '{' && s[|s| - 1] == '}' then
      var inner := s[1..|s| - 1];
      if inner == "" then Some([]) else Some(Split(inner))
    else None
  }

  /** A field `%f` can produce: not empty and without a comma. */
  predicate PlainField(f: string)
  {
    f != "" && ',' !in f
  }

  /**
   * Lines 59-63 of storage.go: fill a slice with one formatted string per
   * element, in order, then join and wrap it.
   */
  method FormatArrayLiteral(biometricId: seq<real>, format: real -> string) returns (literal: string)
    ensures literal == Literal(Fields(biometricId, format))
    ensures biometricId == [] ==> literal == "{}"
  {
    var biometricStr := new string[|biometricId|];
    for i := 0 to |biometricId|
      invariant forall k | 0 <= k < i :: biometricStr[k] == format(biometricId[k])
    {
      biometricStr[i] := format(biometricId[i]);
    }
    assert biometricStr[..] == Fields(biometricId, format);
    literal := "{" + Join(biometricStr[..]) + "}";
  }

  lemma {:induction false} SplitWithoutComma(a: string)
    requires ',' !in a
    ensures Split(a) == [a]
  {
    if a != [] {
      SplitWithoutComma(a[1..]);
      assert [a[0]] + a[1..] == a;
    }
  }

  lemma {:induction false} SplitAfterField(a: string, b: string)
    requires ',' !in a
    ensures Split(a + "," + b) == [a] + Split(b)
  {
    if a == [] {
      assert a + "," + b == [','] + b;
      assert ([','] + b)[1..] == b;
    } else {
      assert (a + "," + b)[1..] == a[1..] + "," + b;
      SplitAfterField(a[1..], b);
      assert [a[0]] + a[1..] == a;
    }
  }

  /** Splitting at commas undoes `Join` when no field holds a comma. */
  lemma {:induction false} SplitJoin(fields: seq<string>)
    requires |fields| >= 1
    requires forall i | 0 <= i < |fields| :: ',' !in fields[i]
    ensures Split(Join(fields)) == fields
  {
    if |fields| == 1 {
      SplitWithoutComma(fields[0]);
    } else {
      SplitAfterField(fields[0], Join(fields[1..]));
      SplitJoin(fields[1..]);
    }
  }

  /**
   * The literal holds exactly one field per element, in order: reading it
   * back gives the fields again, and the empty vector gives `{}`.
   */
  lemma {:induction false} LiteralRoundTrip(fields: seq<string>)
    requires forall i | 0 <= i < |fields| :: PlainField(fields[i])
    ensures ParseLiteral(Literal(fields)) == Some(fields)
  {
    var s := Literal(fields);
    assert s[1..|s| - 1] == Join(fields);
    if |fields| > 0 {
      assert |Join(fields)| >= |fields[0]| > 0;
      SplitJoin(fields);
    }
  }
}
