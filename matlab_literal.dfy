/** The Matlab-literal serialiser of a formant data set: `Formants.to_matlab_literal` and
    `Formants._list_to_matlab_string`. Rendering a single number is Python's `str`, which is
    left abstract as the parameter `show`. */
module MatlabLiteral {
  import opened Wrappers
  import opened Text

  /** A leaf of the data set: a Python `int`, a `float`, or the `numpy.nan` that marks a
      missing formant slot. */
  datatype Num = Int(i: int) | Float(x: real) | NaN

  /** A value of the data dictionary: a scalar, a list of numbers, or a list of lists. */
  datatype Value = Scalar(n: Num) | Vector(items: seq<Num>) | Matrix(rows: seq<seq<Num>>)

  /** One `key: value` item of the dictionary, in insertion order. */
  datatype Entry = Entry(key: string, value: Value)

  function Render(xs: seq<Num>, show: Num -> string): (r: seq<string>)
    ensures |r| == |xs|
    ensures forall k :: 0 <= k < |xs| ==> r[k] == show(xs[k])
  {
    seq(|xs|, k requires 0 <= k < |xs| => show(xs[k]))
  }

  /** `",".join([str(y) for y in x])`. */
  function RowText(row: seq<Num>, show: Num -> string): string {
    Join(",", Render(row, show))
  }

  function RowsText(rows: seq<seq<Num>>, show: Num -> string): (r: seq<string>)
    ensures |r| == |rows|
    ensures forall k :: 0 <= k < |rows| ==> r[k] == RowText(rows[k], show)
  {
    seq(|rows|, k requires 0 <= k < |rows| => RowText(rows[k], show))
  }

  /** `_list_to_matlab_string` as written: `a[0]` raises `IndexError` on an empty list,
      modelled as `None`. */
  function ListToMatlabAsWritten(v: Value, show: Num -> string): Option<string> {
    match v
    case Scalar(n) => Some(show(n))
    case Vector(xs) => if |xs| == 0 then None else Some("[" + RowText(xs, show) + "]")
    case Matrix(rows) => if |rows| == 0 then None else Some("[" + Join(";", RowsText(rows, show)) + "]")
  }

  /** `_list_to_matlab_string` with the empty list rendered as `[]`: a scalar is its text,
      a list is always a bracketed literal. */
  function ListToMatlab(v: Value, show: Num -> string): (s: string)
    ensures v.Scalar? ==> s == show(v.n)
    ensures !v.Scalar? ==> |s| >= 2 && s[0] == '[' && s[|s| - 1] == ']'
  {
    match v
    case Scalar(n) => show(n)
    case Vector(xs) => "[" + RowText(xs, show) + "]"
    case Matrix(rows) => "[" + Join(";", RowsText(rows, show)) + "]"
  }

  /** The as-written renderer fails exactly on the empty lists and otherwise agrees with
      the corrected one. */
  lemma ListToMatlabAgrees(v: Value, show: Num -> string)
    ensures ListToMatlabAsWritten(v, show).None? <==> (v.Vector? && v.items == []) || (v.Matrix? && v.rows == [])
    ensures ListToMatlabAsWritten(v, show).Some? ==> ListToMatlabAsWritten(v, show).value == ListToMatlab(v, show)
  {
  }

  /** The empty list, which a report without frames stores under `t`, `formants`,
      `bandwidths` and `intensity`, cannot be rendered as written; corrected, it is `[]`. */
  lemma EmptyListNotRendered(show: Num -> string)
    ensures ListToMatlabAsWritten(Vector([]), show) == None
    ensures ListToMatlabAsWritten(Matrix([]), show) == None
    ensures ListToMatlab(Vector([]), show) == "[]"
    ensures ListToMatlab(Matrix([]), show) == "[]"
  {
  }

  ghost predicate ShowsPlainly(show: Num -> string, c: char) {
    forall x :: c !in show(x)
  }

  lemma RowTextExcludes(row: seq<Num>, show: Num -> string, c: char)
    requires ShowsPlainly(show, c) && c != ','
    ensures c !in RowText(row, show)
  {
    JoinExcludes(",", Render(row, show), c);
  }

  /** Layout of a flat list: between the brackets, splitting on `,` gives the text of
      each element in order, provided the list is not empty and no number renders with
      `,`. */
  lemma VectorLayout(xs: seq<Num>, show: Num -> string)
    requires |xs| > 0
    requires ShowsPlainly(show, ',')
    ensures var s := ListToMatlab(Vector(xs), show);
            Split(s[1..|s| - 1], ',') == Render(xs, show)
  {
    var s := ListToMatlab(Vector(xs), show);
    assert s[1..|s| - 1] == RowText(xs, show);
    SplitJoin(Render(xs, show), ',');
  }

  /** Row-major layout of a table: between the brackets, splitting on `;` gives one piece
      per row and splitting a piece on `,` gives that row's elements, provided no number
      renders with `,` or `;` and no row is empty. */
  lemma MatrixLayout(rows: seq<seq<Num>>, show: Num -> string)
    requires |rows| > 0
    requires forall k :: 0 <= k < |rows| ==> |rows[k]| > 0
    requires ShowsPlainly(show, ',') && ShowsPlainly(show, ';')
    ensures var s := ListToMatlab(Matrix(rows), show);
            var pieces := Split(s[1..|s| - 1], ';');
            |pieces| == |rows| &&
            forall k :: 0 <= k < |rows| ==> Split(pieces[k], ',') == Render(rows[k], show)
  {
    var s := ListToMatlab(Matrix(rows), show);
    var texts := RowsText(rows, show);
    assert s[1..|s| - 1] == Join(";", texts);
    forall k | 0 <= k < |texts|
      ensures ';' !in texts[k]
    {
      RowTextExcludes(rows[k], show, ';');
    }
    SplitJoin(texts, ';');
    forall k | 0 <= k < |rows|
      ensures Split(texts[k], ',') == Render(rows[k], show)
    {
      SplitJoin(Render(rows[k], show), ',');
    }
  }

  /** The flat list `s` that `to_matlab_literal` builds: `'key'` then the value's text, per item. */
  function EntryParts(d: seq<Entry>, show: Num -> string): (r: seq<string>)
    ensures |r| == 2 * |d|
    ensures forall k :: 0 <= k < |d| ==> r[2 * k] == "'" + d[k].key + "'" && r[2 * k + 1] == ListToMatlab(d[k].value, show)
    decreases |d|
  {
    if |d| == 0 then []
    else ["'" + d[0].key + "'", ListToMatlab(d[0].value, show)] + EntryParts(d[1..], show)
  }

  /** `"struct(" + ",".join(s) + ")"`. */
  function StructLiteral(d: seq<Entry>, show: Num -> string): (s: string)
    ensures StartsWith(s, "struct(") && s[|s| - 1] == ')'
  {
    "struct(" + Join(",", EntryParts(d, show)) + ")"
  }

  /** The same, with the as-written renderer: one unrenderable value fails the whole export. */
  function StructLiteralAsWritten(d: seq<Entry>, show: Num -> string): (r: Option<string>)
    ensures r.Some? ==> r.value == StructLiteral(d, show)
    ensures r.None? <==> exists k :: 0 <= k < |d| && ListToMatlabAsWritten(d[k].value, show).None?
  {
    if forall k :: 0 <= k < |d| ==> ListToMatlabAsWritten(d[k].value, show).Some? then
      assert forall k :: 0 <= k < |d| ==> ListToMatlabAsWritten(d[k].value, show) == Some(ListToMatlab(d[k].value, show)) by {
        forall k | 0 <= k < |d| {
          ListToMatlabAgrees(d[k].value, show);
        }
      }
      Some(StructLiteral(d, show))
    else None
  }

  /** For a dictionary of scalars whose keys and numbers render without `,`, splitting the
      text between `struct(` and `)` on `,` recovers every quoted key and every value. */
  lemma ScalarStructLayout(d: seq<Entry>, show: Num -> string)
    requires |d| > 0
    requires forall k :: 0 <= k < |d| ==> d[k].value.Scalar? && ',' !in d[k].key
    requires ShowsPlainly(show, ',')
    ensures var s := StructLiteral(d, show);
            Split(s[7..|s| - 1], ',') == EntryParts(d, show)
  {
    var parts := EntryParts(d, show);
    var s := StructLiteral(d, show);
    assert s[7..|s| - 1] == Join(",", parts);
    forall j | 0 <= j < |parts|
      ensures ',' !in parts[j]
    {
      var k := j / 2;
      if j % 2 == 0 {
        assert parts[2 * k] == "'" + d[k].key + "'";
      } else {
        assert parts[2 * k + 1] == show(d[k].value.n);
      }
    }
    SplitJoin(parts, ',');
  }
}
