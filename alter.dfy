/**
 * The MySQL `ALTER TABLE` builder (class `Eden_Mysql_Alter`).
 *
 * A builder collects the table name, the columns to add and to change (keyed
 * by column name, in first-insertion order) and seven ordered lists of names
 * (columns to drop; plain, unique and primary keys to add and to drop).
 * `GetQuery` turns that state into one statement.
 *
 * The declarative description of the statement is `Render`, a function of the
 * builder's state as an `AlterState` value; the builder's own `GetQuery` builds
 * the statement with loops, as `getQuery` does, and is proved to produce
 * exactly `Render(State())`.
 */
module MysqlAlter {
  import opened Wrappers
  import opened Php

  // ---------------------------------------------------------------------------
  // Column attributes
  // ---------------------------------------------------------------------------

  /** The 'default' attribute, in the cases the renderer tells apart. */
  datatype Default =
    | Unset              // not given, or NULL
    | False              // the boolean false, which disables the default
    | Str(text: string)  // a string, numeric or not
    | Num(number: int)   // an integer
    | Other              // any other value (true, an array): renders nothing

  /** The attributes array given to addField and changeField. */
  datatype Attributes = Attributes(
    name: Option<string>,       // 'name': the new column name, read by CHANGE only
    fieldType: Option<string>,  // 'type'
    length: Option<string>,     // 'length'
    attribute: Option<string>,  // 'attribute', free text such as UNSIGNED
    nullable: Option<bool>,     // 'null'
    default: Default,           // 'default'
    autoIncrement: bool)        // 'auto_increment' given and true

  /** An attributes array with no key set. */
  const NoAttributes := Attributes(None, None, None, None, None, Unset, false)

  /** A name between backticks. */
  function Quote(n: string): string {
    "`" + n + "`"
  }

  const NotNull := "NOT NULL"
  const DefaultNull := "DEFAULT NULL"
  const AutoIncrement := "auto_increment"

  // Each attribute contributes at most one token to a column definition.

  /** The type, followed by the length in parentheses when one is given. */
  function TypeToken(a: Attributes): seq<string> {
    match a.fieldType
    case None => []
    case Some(t) => [match a.length case None => t case Some(l) => t + "(" + l + ")"]
  }

  /** The free-form attribute, verbatim. */
  function AttributeToken(a: Attributes): seq<string> {
    match a.attribute
    case None => []
    case Some(x) => [x]
  }

  /** `NOT NULL` when 'null' is false, `DEFAULT NULL` when it is true, nothing when unset. */
  function NullToken(a: Attributes): seq<string> {
    match a.nullable
    case None => []
    case Some(b) => [if b == false then NotNull else DefaultNull]
  }

  /** The default clause: only when 'null' is not true, quoted for a string, bare for a number. */
  function DefaultToken(a: Attributes): seq<string> {
    if a.nullable == Some(true) then []
    else
      match a.default
      case Str(v) => ["DEFAULT '" + v + "'"]
      case Num(n) => ["DEFAULT " + IntToString(n)]
      case _ => []
  }

  function AutoIncrementToken(a: Attributes): seq<string> {
    if a.autoIncrement then [AutoIncrement] else []
  }

  /**
   * The tokens of a column fragment: the head, then the column definition
   * shared by ADD and CHANGE: type (with its length), attribute, null clause,
   * default and auto_increment, in that order, each only when present.
   */
  function FieldTokens(head: string, a: Attributes): seq<string> {
    [head] + TypeToken(a) + AttributeToken(a) + NullToken(a) + DefaultToken(a) + AutoIncrementToken(a)
  }

  /** A column fragment: its tokens separated by single spaces. */
  function FieldFragment(head: string, a: Attributes): string {
    Implode(" ", FieldTokens(head, a))
  }

  /** The head of an ADD fragment: the quoted column name. */
  function AddHead(n: string): string {
    "ADD " + Quote(n)
  }

  /** The head of a CHANGE fragment: the old name, two spaces, the new name (or the old one again). */
  function ChangeHead(current: string, a: Attributes): string {
    "CHANGE " + Quote(current) + "  " + Quote(a.name.GetOr(current))
  }

  function AddFragment(field: (string, Attributes)): string {
    FieldFragment(AddHead(field.0), field.1)
  }

  function ChangeFragment(field: (string, Attributes)): string {
    FieldFragment(ChangeHead(field.0, field.1), field.1)
  }

  // ---------------------------------------------------------------------------
  // The statement
  // ---------------------------------------------------------------------------

  /** Everything a builder holds. */
  datatype AlterState = AlterState(
    name: Option<string>,
    changeFields: OrderedArray<Attributes>,
    addFields: OrderedArray<Attributes>,
    removeFields: seq<string>,
    addKeys: seq<string>,
    removeKeys: seq<string>,
    addUniqueKeys: seq<string>,
    removeUniqueKeys: seq<string>,
    addPrimaryKeys: seq<string>,
    removePrimaryKeys: seq<string>)

  /** One `prefix` + quoted name per name, in order. */
  function Dropped(prefix: string, names: seq<string>): (r: seq<string>)
    ensures |r| == |names|
    ensures forall i :: 0 <= i < |names| ==> r[i] == prefix + Quote(names[i])
  {
    if names == [] then []
    else Dropped(prefix, names[..|names| - 1]) + [prefix + Quote(names[|names| - 1])]
  }

  /** One fragment per element, in order: the `foreach` loops in `getQuery` that append to the list. */
  function Each<T>(fragment: T -> string, xs: seq<T>): (r: seq<string>)
    ensures |r| == |xs|
  {
    if xs == [] then [] else Each(fragment, xs[..|xs| - 1]) + [fragment(xs[|xs| - 1])]
  }

  lemma {:induction false} EachAt<T>(fragment: T -> string, xs: seq<T>, i: nat)
    requires i < |xs|
    ensures Each(fragment, xs)[i] == fragment(xs[i])
  {
    var init := xs[..|xs| - 1];
    if i < |init| {
      EachAt(fragment, init, i);
      assert xs[i] == init[i];
    }
  }

  /** Appending an element appends its fragment. */
  lemma EachSnoc<T>(fragment: T -> string, xs: seq<T>, x: T)
    ensures Each(fragment, xs + [x]) == Each(fragment, xs) + [fragment(x)]
  {
    assert (xs + [x])[..|xs|] == xs;
  }

  /** One more element of a prefix adds its fragment (the step of a loop over `xs`). */
  lemma EachPrefix<T>(fragment: T -> string, xs: seq<T>, i: nat)
    requires i < |xs|
    ensures Each(fragment, xs[..i + 1]) == Each(fragment, xs[..i]) + [fragment(xs[i])]
  {
    assert xs[..i + 1] == xs[..i] + [xs[i]];
    EachSnoc(fragment, xs[..i], xs[i]);
  }

  /** A single `opening k1, k2, ...)` fragment, such as `ADD INDEX (...)`, or none when there are no keys. */
  function KeyGroup(opening: string, keys: seq<string>): seq<string> {
    if keys == [] then [] else [opening + Implode(", ", keys) + ")"]
  }

  /** The fragments of the statement, group by group in the fixed order. */
  function Fragments(s: AlterState): seq<string> {
    Dropped("DROP ", s.removeFields)
    + Each(AddFragment, s.addFields)
    + Each(ChangeFragment, s.changeFields)
    + Dropped("DROP INDEX ", s.removeKeys)
    + KeyGroup("ADD INDEX (", s.addKeys)
    + Dropped("DROP INDEX ", s.removeUniqueKeys)
    + KeyGroup("ADD UNIQUE (", s.addUniqueKeys)
    + Dropped("DROP PRIMARY KEY ", s.removePrimaryKeys)
    + KeyGroup("ADD PRIMARY KEY (", s.addPrimaryKeys)
  }

  /** The statement: the quoted table name and the fragments joined by a comma and a newline. */
  function Render(s: AlterState): string {
    "ALTER TABLE " + Quote(s.name.GetOr("")) + " " + Implode(", \n", Fragments(s)) + ";"
  }

  // ---------------------------------------------------------------------------
  // The builder
  // ---------------------------------------------------------------------------

  /**
   * Builds the text of one column fragment as `getQuery` does: start a list
   * with the head, append each present part of the definition in turn, and
   * join the list with single spaces.
   */
  method ColumnFragment(head: string, attr: Attributes) returns (fragment: string)
    ensures fragment == FieldFragment(head, attr)
  {
    var field := [head];
    if attr.fieldType.Some? {
      var t := attr.fieldType.value;
      field := field + [if attr.length.Some? then t + "(" + attr.length.value + ")" else t];
    }
    assert field == [head] + TypeToken(attr);
    if attr.attribute.Some? {
      field := field + [attr.attribute.value];
    }
    assert field == [head] + TypeToken(attr) + AttributeToken(attr);
    if attr.nullable.Some? {
      if attr.nullable.value == false {
        field := field + [NotNull];
      } else {
        field := field + [DefaultNull];
      }
    }
    assert field == [head] + TypeToken(attr) + AttributeToken(attr) + NullToken(attr);
    if attr.default != Unset && attr.default != False {
      if attr.nullable.None? || attr.nullable.value == false {
        if attr.default.Str? {
          field := field + ["DEFAULT '" + attr.default.text + "'"];
        } else if attr.default.Num? {
          field := field + ["DEFAULT " + IntToString(attr.default.number)];
        }
      }
    }
    assert field == [head] + TypeToken(attr) + AttributeToken(attr) + NullToken(attr) + DefaultToken(attr);
    if attr.autoIncrement {
      field := field + [AutoIncrement];
    }
    assert field == FieldTokens(head, attr);
    fragment := Implode(" ", field);
  }

  /** Appends one `prefix` + quoted name per name (the `foreach` over a list of names in `getQuery`). */
  method AppendDropped(fields: seq<string>, prefix: string, names: seq<string>) returns (r: seq<string>)
    ensures r == fields + Dropped(prefix, names)
  {
    r := fields;
    for i := 0 to |names|
      invariant r == fields + Dropped(prefix, names[..i])
    {
      assert names[..i + 1][..i] == names[..i];
      r := r + [prefix + Quote(names[i])];
    }
    assert names[..|names|] == names;
  }

  /** Appends one ADD fragment per added column. */
  method AppendAdded(fields: seq<string>, added: OrderedArray<Attributes>) returns (r: seq<string>)
    ensures r == fields + Each(AddFragment, added)
  {
    r := fields;
    for i := 0 to |added|
      invariant r == fields + Each(AddFragment, added[..i])
    {
      EachPrefix(AddFragment, added, i);
      var field := ColumnFragment(AddHead(added[i].0), added[i].1);
      assert field == AddFragment(added[i]);
      r := r + [field];
    }
    assert added[..|added|] == added;
  }

  /** Appends one CHANGE fragment per changed column. */
  method AppendChanged(fields: seq<string>, changed: OrderedArray<Attributes>) returns (r: seq<string>)
    ensures r == fields + Each(ChangeFragment, changed)
  {
    r := fields;
    for i := 0 to |changed|
      invariant r == fields + Each(ChangeFragment, changed[..i])
    {
      EachPrefix(ChangeFragment, changed, i);
      var (n, attr) := changed[i];
      var head := "CHANGE " + Quote(n) + "  " + Quote(n);
      if attr.name.Some? {
        head := "CHANGE " + Quote(n) + "  " + Quote(attr.name.value);
      }
      assert head == ChangeHead(n, attr);
      var field := ColumnFragment(head, attr);
      assert field == ChangeFragment(changed[i]);
      r := r + [field];
    }
    assert changed[..|changed|] == changed;
  }

  /** Appends the single `opening keys)` fragment when there are keys. */
  method AppendKeyGroup(fields: seq<string>, opening: string, keys: seq<string>) returns (r: seq<string>)
    ensures r == fields + KeyGroup(opening, keys)
  {
    r := fields;
    if keys != [] {
      r := r + [opening + Implode(", ", keys) + ")"];
    }
  }

  class Alter {
    var name: Option<string>
    var changeFields: OrderedArray<Attributes>
    var addFields: OrderedArray<Attributes>
    var removeFields: seq<string>
    var addKeys: seq<string>
    var removeKeys: seq<string>
    var addUniqueKeys: seq<string>
    var removeUniqueKeys: seq<string>
    var addPrimaryKeys: seq<string>
    var removePrimaryKeys: seq<string>

    /** The two column maps are PHP arrays, so no column name occurs twice in either. */
    ghost predicate Valid()
      reads this
    {
      UniqueKeys(changeFields) && UniqueKeys(addFields)
    }

    function State(): AlterState
      reads this
    {
      AlterState(name, changeFields, addFields, removeFields, addKeys, removeKeys,
                 addUniqueKeys, removeUniqueKeys, addPrimaryKeys, removePrimaryKeys)
    }

    /** A builder with nothing collected, named when a name is given. */
    constructor(name: Option<string> := None)
      ensures Valid()
      ensures State() == AlterState(name, [], [], [], [], [], [], [], [], [])
    {
      this.name := name;
      changeFields, addFields := [], [];
      removeFields, addKeys, removeKeys := [], [], [];
      addUniqueKeys, removeUniqueKeys, addPrimaryKeys, removePrimaryKeys := [], [], [], [];
    }

    method SetName(name: string)
      requires Valid()
      modifies this
      ensures Valid()
      ensures State() == old(State()).(name := Some(name))
    {
      this.name := Some(name);
    }

    /** Records the new definition of column `name`, replacing an earlier one in its place. */
    method ChangeField(name: string, attributes: Attributes)
      requires Valid()
      modifies this
      ensures Valid()
      ensures State() == old(State()).(changeFields := Put(old(changeFields), name, attributes))
    {
      PutUniqueKeys(changeFields, name, attributes);
      changeFields := Put(changeFields, name, attributes);
    }

    /** Records column `name` to be added, replacing an earlier one in its place. */
    method AddField(name: string, attributes: Attributes)
      requires Valid()
      modifies this
      ensures Valid()
      ensures State() == old(State()).(addFields := Put(old(addFields), name, attributes))
    {
      PutUniqueKeys(addFields, name, attributes);
      addFields := Put(addFields, name, attributes);
    }

    method RemoveField(name: string)
      requires Valid()
      modifies this
      ensures Valid()
      ensures State() == old(State()).(removeFields := old(removeFields) + [name])
    {
      removeFields := removeFields + [name];
    }

    /** Adding a key stores its name already quoted. */
    method AddKey(name: string)
      requires Valid()
      modifies this
      ensures Valid()
      ensures State() == old(State()).(addKeys := old(addKeys) + [Quote(name)])
    {
      addKeys := addKeys + ["`" + name + "`"];
    }

    /** Removing a key stores its name as given. */
    method RemoveKey(name: string)
      requires Valid()
      modifies this
      ensures Valid()
      ensures State() == old(State()).(removeKeys := old(removeKeys) + [name])
    {
      removeKeys := removeKeys + [name];
    }

    method AddUniqueKey(name: string)
      requires Valid()
      modifies this
      ensures Valid()
      ensures State() == old(State()).(addUniqueKeys := old(addUniqueKeys) + [Quote(name)])
    {
      addUniqueKeys := addUniqueKeys + ["`" + name + "`"];
    }

    method RemoveUniqueKey(name: string)
      requires Valid()
      modifies this
      ensures Valid()
      ensures State() == old(State()).(removeUniqueKeys := old(removeUniqueKeys) + [name])
    {
      removeUniqueKeys := removeUniqueKeys + [name];
    }

    method AddPrimaryKey(name: string)
      requires Valid()
      modifies this
      ensures Valid()
      ensures State() == old(State()).(addPrimaryKeys := old(addPrimaryKeys) + [Quote(name)])
    {
      addPrimaryKeys := addPrimaryKeys + ["`" + name + "`"];
    }

    method RemovePrimaryKey(name: string)
      requires Valid()
      modifies this
      ensures Valid()
      ensures State() == old(State()).(removePrimaryKeys := old(removePrimaryKeys) + [name])
    {
      removePrimaryKeys := removePrimaryKeys + [name];
    }

    /** Builds the statement fragment by fragment and wraps it; reads the state only. */
    method GetQuery() returns (query: string)
      ensures query == Render(State())
    {
      var fields: seq<string> := [];
      var table := Quote(name.GetOr(""));
      fields := AppendDropped(fields, "DROP ", removeFields);
      assert fields == Dropped("DROP ", removeFields);
      fields := AppendAdded(fields, addFields);
      fields := AppendChanged(fields, changeFields);
      fields := AppendDropped(fields, "DROP INDEX ", removeKeys);
      fields := AppendKeyGroup(fields, "ADD INDEX (", addKeys);
      fields := AppendDropped(fields, "DROP INDEX ", removeUniqueKeys);
      fields := AppendKeyGroup(fields, "ADD UNIQUE (", addUniqueKeys);
      fields := AppendDropped(fields, "DROP PRIMARY KEY ", removePrimaryKeys);
      fields := AppendKeyGroup(fields, "ADD PRIMARY KEY (", addPrimaryKeys);
      query := "ALTER TABLE " + table + " " + Implode(", \n", fields) + ";";
    }
  }
}
