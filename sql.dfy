/**
 * A parameterised SQL statement as the GET handlers build it: a text that
 * grows by `+=` and a list of bind values that grows by `push`, which the
 * database driver pairs up one `?` per value, left to right.
 */
module Sql {
  import opened Common

  class Statement {
    var text: string
    var params: seq<string>

    /** Every `?` of the text has its bind value, and every value its `?`. */
    ghost predicate Aligned()
      reads this
    {
      CountChar(text, '?') == |params|
    }

    /** `let query = base; const params = []`. */
    constructor (base: string)
      requires CountChar(base, '?') == 0
      ensures text == base && params == []
      ensures Aligned()
    {
      text, params := base, [];
    }

    /** `query += clause; params.push(...values)`: the clause's placeholders are bound to `values`. */
    method Bind(clause: string, values: seq<string>)
      requires Aligned()
      requires CountChar(clause, '?') == |values|
      modifies this
      ensures Aligned()
      ensures text == old(text) + clause && params == old(params) + values
    {
      CountCharAppend(text, clause, '?');
      text, params := text + clause, params + values;
    }

    /** `query += clause` for a clause without placeholders. */
    method Append(clause: string)
      requires Aligned()
      requires CountChar(clause, '?') == 0
      modifies this
      ensures Aligned()
      ensures text == old(text) + clause && params == old(params)
    {
      CountCharAppend(text, clause, '?');
      text := text + clause;
    }
  }

  /** The bind value an optional search parameter contributes: itself when non-empty, nothing otherwise. */
  function Bound(param: Option<string>): (r: seq<string>)
    ensures |r| <= 1
    ensures r == [] <==> !Present(param)
    ensures r != [] ==> r[0] == param.value
  {
    if Present(param) then [param.value] else []
  }

  /** The text an optional filter adds: its clause when the parameter is non-empty, nothing otherwise. */
  function Clause(filter: string, param: Option<string>): (r: string)
    ensures r == filter <==> Present(param) || filter == ""
    ensures r == "" <==> !Present(param) || filter == ""
  {
    if Present(param) then filter else ""
  }

  /** A clause made of placeholder-free text followed by one `?` binds exactly one value. */
  lemma OnePlaceholder(clause: string)
    requires NoPlaceholder(clause)
    ensures CountChar(clause + "?", '?') == 1
  {
    NoPlaceholderCount(clause);
    CountCharAppend(clause, "?", '?');
  }
}
