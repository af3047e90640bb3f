/**
 * The `SELECT` builder (class `Eden_Sql_Select`).
 *
 * A builder holds the select list, the table, the join fragments, the WHERE
 * predicates, the ORDER BY entries, the GROUP BY list and the LIMIT pair.
 * `select`, `from`, `groupBy` and `limit` overwrite what they set; `join`,
 * `where` and `sortBy` append. `GetQuery` fills a fixed template with one
 * section per clause and then makes a single `str_replace` pass that turns
 * each pair of spaces into one.
 */
module SqlSelect {
  import opened Wrappers
  import opened Php

  /** An argument that PHP accepts either as one string or as a list of strings. */
  datatype Phrase = One(text: string) | Many(items: seq<string>)

  /** A select argument as text: a list is joined with `", "`. */
  function SelectText(p: Phrase): string {
    match p
    case One(t) => t
    case Many(items) => Implode(", ", items)
  }

  /** A where argument as predicates: a single string is a one-predicate list. */
  function Predicates(p: Phrase): seq<string> {
    match p
    case One(t) => [t]
    case Many(items) => items
  }

  /**
   * One join fragment: `type JOIN table USING (where)`, or, when `using` is
   * false, `type JOIN table  ON (where)` with two spaces before ON.
   */
  function JoinFragment(joinType: string, table: string, where: string, using: bool): string {
    joinType + " JOIN " + table + " " + (if using then "USING (" + where + ")" else " ON (" + where + ")")
  }

  /** One ORDER BY entry: the field, a space, the direction. */
  function SortFragment(field: string, order: string): string {
    field + " " + order
  }

  /** Everything a builder holds; `from`, `page` and `length` start as NULL. */
  datatype SelectState = SelectState(
    select: string,
    from: Option<string>,
    joins: seq<string>,
    where: seq<string>,
    sortBy: seq<string>,
    group: seq<string>,
    page: Option<int>,
    length: Option<int>)

  // ---------------------------------------------------------------------------
  // The template sections; an empty list gives an empty section
  // ---------------------------------------------------------------------------

  function JoinsText(s: SelectState): string {
    if s.joins == [] then "" else Implode(" ", s.joins)
  }

  function WhereText(s: SelectState): string {
    if s.where == [] then "" else "WHERE " + Implode(" AND ", s.where)
  }

  function SortText(s: SelectState): string {
    if s.sortBy == [] then "" else "ORDER BY " + Implode(", ", s.sortBy)
  }

  /** PHP's string conversion of an optional integer: NULL converts to the empty string. */
  function OptionalIntText(n: Option<int>): string {
    match n
    case None => ""
    case Some(v) => IntToString(v)
  }

  /** `LIMIT page,length`, present exactly when a page is set. */
  function LimitText(s: SelectState): string {
    match s.page
    case None => ""
    case Some(p) => "LIMIT " + IntToString(p) + "," + OptionalIntText(s.length)
  }

  function GroupText(s: SelectState): string {
    if s.group == [] then "" else "GROUP BY " + Implode(", ", s.group)
  }

  /** The filled template `SELECT %s FROM %s %s %s %s %s %s;`, before any space is collapsed. */
  function Template(s: SelectState): string {
    "SELECT " + s.select + " FROM " + s.from.GetOr("") + " " + JoinsText(s) + " " + WhereText(s)
    + " " + SortText(s) + " " + LimitText(s) + " " + GroupText(s) + ";"
  }

  /** One left-to-right pass replacing each pair of spaces by one space. */
  function Collapse(t: string): string {
    StrReplace(t, "  ", " ")
  }

  /** The statement. */
  function Render(s: SelectState): string {
    Collapse(Template(s))
  }

  // ---------------------------------------------------------------------------
  // The builder
  // ---------------------------------------------------------------------------

  class Select {
    var select: string
    var from: Option<string>
    var joins: seq<string>
    var where: seq<string>
    var sortBy: seq<string>
    var group: seq<string>
    var page: Option<int>
    var length: Option<int>

    /** `limit` is the only setter of the page and the length, and it sets both. */
    ghost predicate Valid()
      reads this
    {
      page.Some? == length.Some?
    }

    function State(): SelectState
      reads this
    {
      SelectState(select, from, joins, where, sortBy, group, page, length)
    }

    /** A builder with the given select list (`*` by default) and nothing else. */
    constructor(select: Phrase := One("*"))
      ensures Valid()
      ensures State() == SelectState(SelectText(select), None, [], [], [], [], None, None)
    {
      this.select := SelectText(select);
      from := None;
      joins, where, sortBy, group := [], [], [], [];
      page, length := None, None;
    }

    /** Replaces the select list. */
    method Select(select: Phrase := One("*"))
      requires Valid()
      modifies this
      ensures Valid()
      ensures State() == old(State()).(select := SelectText(select))
    {
      this.select := SelectText(select);
    }

    /** Replaces the table. */
    method From(from: string)
      requires Valid()
      modifies this
      ensures Valid()
      ensures State() == old(State()).(from := Some(from))
    {
      this.from := Some(from);
    }

    /** Appends one join fragment. */
    method Join(joinType: string, table: string, where: string, using: bool := true)
      requires Valid()
      modifies this
      ensures Valid()
      ensures State() == old(State()).(joins := old(joins) + [JoinFragment(joinType, table, where, using)])
    {
      var linkage := if using then "USING (" + where + ")" else " ON (" + where + ")";
      joins := joins + [joinType + " JOIN " + table + " " + linkage];
    }

    /** Appends the predicates, in order and without removing repeats. */
    method Where(where: Phrase)
      requires Valid()
      modifies this
      ensures Valid()
      ensures State() == old(State()).(where := old(this.where) + Predicates(where))
    {
      var items := if where.One? then [where.text] else where.items;
      this.where := this.where + items;
    }

    /** Appends one ORDER BY entry; the direction defaults to ascending. */
    method SortBy(field: string, order: string := "ASC")
      requires Valid()
      modifies this
      ensures Valid()
      ensures State() == old(State()).(sortBy := old(sortBy) + [SortFragment(field, order)])
    {
      sortBy := sortBy + [field + " " + order];
    }

    /** Replaces the GROUP BY list. */
    method GroupBy(group: seq<string>)
      requires Valid()
      modifies this
      ensures Valid()
      ensures State() == old(State()).(group := group)
    {
      this.group := group;
    }

    /** Sets the page and the length together. */
    method Limit(page: int, length: int)
      requires Valid()
      modifies this
      ensures Valid()
      ensures State() == old(State()).(page := Some(page), length := Some(length))
    {
      this.page := Some(page);
      this.length := Some(length);
    }

    /**
     * The statement for the current state: the template filled from the
     * fields, then one pass of the space-collapsing replacement. Reading it
     * changes nothing.
     */
    function GetQuery(): (query: string)
      reads this
      ensures query == Collapse(Template(State()))
    {
      Render(State())
    }
  }
}
