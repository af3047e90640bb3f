/**
 * What the `ALTER TABLE` builder promises, stated about `MysqlAlter.Render`
 * and the column-definition rule: the text of a column definition, the
 * default-value policy, the order of the fragments and how often each
 * key-group fragment occurs.
 */
module MysqlAlterProperties {
  import opened Wrappers
  import opened Php
  import opened MysqlAlter

  // ---------------------------------------------------------------------------
  // Sequence helpers
  // ---------------------------------------------------------------------------

  /** A token list of at most one element as text: empty, or a space and the token. */
  function Spaced(ts: seq<string>): string
    requires |ts| <= 1
  {
    if ts == [] then "" else " " + ts[0]
  }

  /** Appending an optional token to a non-empty list adds it to the joined text after one space. */
  lemma ImplodeSpaced(ps: seq<string>, ts: seq<string>)
    requires |ps| > 0 && |ts| <= 1
    ensures Implode(" ", ps + ts) == Implode(" ", ps) + Spaced(ts)
  {
    if ts == [] {
      assert ps + ts == ps;
    } else {
      assert ts == [ts[0]];
      ImplodeSnoc(" ", ps, ts[0]);
    }
  }

  // ---------------------------------------------------------------------------
  // Column definitions
  // ---------------------------------------------------------------------------

  /**
   * The text of a column fragment: the head, then each present part of the
   * definition after exactly one space, in the order type, attribute, null
   * clause, default, auto_increment.
   */
  lemma FieldFragmentText(head: string, a: Attributes)
    ensures FieldFragment(head, a)
         == head + Spaced(TypeToken(a)) + Spaced(AttributeToken(a)) + Spaced(NullToken(a))
            + Spaced(DefaultToken(a)) + Spaced(AutoIncrementToken(a))
  {
    var p0 := [head];
    var p1 := p0 + TypeToken(a);
    var p2 := p1 + AttributeToken(a);
    var p3 := p2 + NullToken(a);
    var p4 := p3 + DefaultToken(a);
    var p5 := p4 + AutoIncrementToken(a);
    assert Implode(" ", p0) == head;
    ImplodeSpaced(p0, TypeToken(a));
    ImplodeSpaced(p1, AttributeToken(a));
    ImplodeSpaced(p2, NullToken(a));
    ImplodeSpaced(p3, DefaultToken(a));
    ImplodeSpaced(p4, AutoIncrementToken(a));
    assert p5 == FieldTokens(head, a);
  }

  /**
   * The default is ignored when 'null' is true, and whatever 'null' is when
   * the default is neither a string nor a number (unset, false, or another
   * value): the fragment is the one without a default.
   */
  lemma DefaultIgnored(head: string, a: Attributes, d: Default)
    requires a.nullable == Some(true) || !(d.Str? || d.Num?)
    ensures FieldFragment(head, a.(default := d)) == FieldFragment(head, a.(default := Unset))
  {
    assert DefaultToken(a.(default := d)) == [];
    assert FieldTokens(head, a.(default := d)) == FieldTokens(head, a.(default := Unset));
  }

  /** When 'null' is true the definition says `DEFAULT NULL`, whatever the default. */
  lemma NullableSaysDefaultNull(head: string, a: Attributes)
    requires a.nullable == Some(true)
    ensures DefaultNull in FieldTokens(head, a)
    ensures DefaultToken(a) == []
  {
    var ts := FieldTokens(head, a);
    assert ts == [head] + TypeToken(a) + AttributeToken(a) + [DefaultNull] + AutoIncrementToken(a);
    assert ts[1 + |TypeToken(a)| + |AttributeToken(a)|] == DefaultNull;
  }

  /** The part of a column fragment before the default clause. */
  function BeforeDefault(head: string, a: Attributes): string {
    head + Spaced(TypeToken(a)) + Spaced(AttributeToken(a)) + Spaced(NullToken(a))
  }

  /** The fragment of `a` with default `d` in effect, where `d` renders as `tail`. */
  lemma DefaultTextShape(head: string, a: Attributes, d: Default, tail: string)
    requires DefaultToken(a.(default := d)) == [tail]
    ensures FieldFragment(head, a.(default := d))
         == BeforeDefault(head, a) + (" " + tail) + Spaced(AutoIncrementToken(a))
  {
    var ad := a.(default := d);
    FieldFragmentText(head, ad);
    assert TypeToken(ad) == TypeToken(a);
    assert AttributeToken(ad) == AttributeToken(a);
    assert NullToken(ad) == NullToken(a);
    assert AutoIncrementToken(ad) == AutoIncrementToken(a);
  }

  /** Two texts that differ only in a middle part `v` or `w` are equal only when `v == w`. */
  lemma MiddleDecides(x: string, pre: string, v: string, w: string, post: string, y: string)
    requires x + (" " + (pre + v + post)) + y == x + (" " + (pre + w + post)) + y
    ensures v == w
  {
    var t1, t2 := x + (" " + (pre + v + post)) + y, x + (" " + (pre + w + post)) + y;
    var start := |x| + 1 + |pre|;
    assert |v| == |w|;
    forall k | 0 <= k < |v| ensures v[k] == w[k] {
      assert t1[start + k] == v[k];
      assert t2[start + k] == w[k];
    }
  }

  /**
   * When 'null' is not true, a string default is part of the text: two
   * string defaults give the same fragment only when they are equal.
   */
  lemma StringDefaultDecides(head: string, a: Attributes, v: string, w: string)
    requires a.nullable != Some(true)
    ensures FieldFragment(head, a.(default := Str(v))) == FieldFragment(head, a.(default := Str(w))) ==> v == w
  {
    DefaultTextShape(head, a, Str(v), "DEFAULT '" + v + "'");
    DefaultTextShape(head, a, Str(w), "DEFAULT '" + w + "'");
    if FieldFragment(head, a.(default := Str(v))) == FieldFragment(head, a.(default := Str(w))) {
      MiddleDecides(BeforeDefault(head, a), "DEFAULT '", v, w, "'", Spaced(AutoIncrementToken(a)));
    }
  }

  /**
   * When 'null' is not true, a numeric default is part of the text: two
   * numeric defaults give the same fragment only when they are equal.
   */
  lemma NumericDefaultDecides(head: string, a: Attributes, m: int, n: int)
    requires a.nullable != Some(true)
    ensures FieldFragment(head, a.(default := Num(m))) == FieldFragment(head, a.(default := Num(n))) ==> m == n
  {
    var tm, tn := IntToString(m), IntToString(n);
    // A numeric default has no closing quote; an empty `post` fits it to MiddleDecides.
    assert "DEFAULT " + tm + "" == "DEFAULT " + tm && "DEFAULT " + tn + "" == "DEFAULT " + tn;
    DefaultTextShape(head, a, Num(m), "DEFAULT " + tm + "");
    DefaultTextShape(head, a, Num(n), "DEFAULT " + tn + "");
    if FieldFragment(head, a.(default := Num(m))) == FieldFragment(head, a.(default := Num(n))) {
      MiddleDecides(BeforeDefault(head, a), "DEFAULT ", tm, tn, "", Spaced(AutoIncrementToken(a)));
      ParseIntToString(m);
      ParseIntToString(n);
    }
  }

  /**
   * The string case comes before the numeric one, so a numeric string is quoted: the
   * string "5" and the number 5 give different fragments (the quoted one is
   * two characters longer).
   */
  lemma NumericStringQuoted(head: string, a: Attributes, n: int)
    requires a.nullable != Some(true)
    ensures |FieldFragment(head, a.(default := Str(IntToString(n))))|
         == |FieldFragment(head, a.(default := Num(n)))| + 2
  {
    var t := IntToString(n);
    DefaultTextShape(head, a, Str(t), "DEFAULT '" + t + "'");
    DefaultTextShape(head, a, Num(n), "DEFAULT " + t);
  }

  /** Without a 'name' attribute a CHANGE fragment repeats the old name, after two spaces. */
  lemma ChangeKeepsName(current: string, a: Attributes)
    requires a.name.None?
    ensures ChangeFragment((current, a)) == FieldFragment("CHANGE `" + current + "`  `" + current + "`", a)
  {
    assert ChangeHead(current, a) == "CHANGE `" + current + "`  `" + current + "`";
  }

  // ---------------------------------------------------------------------------
  // Fragments
  // ---------------------------------------------------------------------------

  /** The number of fragments: one per dropped name and per column, one per non-empty key group. */
  lemma FragmentCount(s: AlterState)
    ensures |Fragments(s)|
         == |s.removeFields| + |s.addFields| + |s.changeFields|
            + |s.removeKeys| + (if s.addKeys == [] then 0 else 1)
            + |s.removeUniqueKeys| + (if s.addUniqueKeys == [] then 0 else 1)
            + |s.removePrimaryKeys| + (if s.addPrimaryKeys == [] then 0 else 1)
  {
  }

  /** The column fragments: dropped, added, then changed columns. */
  function ColumnGroups(s: AlterState): seq<string> {
    Dropped("DROP ", s.removeFields) + Each(AddFragment, s.addFields) + Each(ChangeFragment, s.changeFields)
  }

  /** The fragment list starts with the column fragments. */
  lemma ColumnGroupsFirst(s: AlterState, j: nat)
    requires j < |ColumnGroups(s)|
    ensures Fragments(s)[j] == ColumnGroups(s)[j]
  {
    var f3 := ColumnGroups(s);
    var f4 := f3 + Dropped("DROP INDEX ", s.removeKeys);
    var f5 := f4 + KeyGroup("ADD INDEX (", s.addKeys);
    var f6 := f5 + Dropped("DROP INDEX ", s.removeUniqueKeys);
    var f7 := f6 + KeyGroup("ADD UNIQUE (", s.addUniqueKeys);
    var f8 := f7 + Dropped("DROP PRIMARY KEY ", s.removePrimaryKeys);
    var f9 := f8 + KeyGroup("ADD PRIMARY KEY (", s.addPrimaryKeys);
    assert Fragments(s) == f9;
    assert f9[j] == f8[j] == f7[j] == f6[j] == f5[j] == f4[j] == f3[j];
  }

  /** The dropped columns come first, in the order they were given. */
  lemma DropFragmentAt(s: AlterState, i: nat)
    requires i < |s.removeFields|
    ensures Fragments(s)[i] == "DROP " + Quote(s.removeFields[i])
  {
    ColumnGroupsFirst(s, i);
  }

  /** The added columns follow the dropped ones, in first-insertion order. */
  lemma AddFragmentAt(s: AlterState, i: nat)
    requires i < |s.addFields|
    ensures Fragments(s)[|s.removeFields| + i] == AddFragment(s.addFields[i])
  {
    ColumnGroupsFirst(s, |s.removeFields| + i);
    EachAt(AddFragment, s.addFields, i);
  }

  /** The changed columns follow the added ones, in first-insertion order. */
  lemma ChangeFragmentAt(s: AlterState, i: nat)
    requires i < |s.changeFields|
    ensures Fragments(s)[|s.removeFields| + |s.addFields| + i] == ChangeFragment(s.changeFields[i])
  {
    var changed := Each(ChangeFragment, s.changeFields);
    var j := |s.removeFields| + |s.addFields| + i;
    assert Fragments(s)[j] == changed[i] by {
      ThirdAt(Dropped("DROP ", s.removeFields), Each(AddFragment, s.addFields), changed, i);
      ColumnGroupsFirst(s, j);
    }
    EachAt(ChangeFragment, s.changeFields, i);
  }

  /** Past two groups, a concatenation holds the third group. */
  lemma ThirdAt(a: seq<string>, b: seq<string>, c: seq<string>, i: nat)
    requires i < |c|
    ensures (a + b + c)[|a| + |b| + i] == c[i]
  {
  }

  /** When primary keys are added, their single fragment closes the list. */
  lemma PrimaryKeyGroupLast(s: AlterState)
    requires s.addPrimaryKeys != []
    ensures Fragments(s)[|Fragments(s)| - 1] == "ADD PRIMARY KEY (" + Implode(", ", s.addPrimaryKeys) + ")"
  {
  }

  /** The number of strings in `fs` that start with `p`. */
  function CountStarting(p: string, fs: seq<string>): nat {
    if fs == [] then 0
    else CountStarting(p, fs[..|fs| - 1]) + (if p <= fs[|fs| - 1] then 1 else 0)
  }

  lemma {:induction false} CountStartingConcat(p: string, xs: seq<string>, ys: seq<string>)
    ensures CountStarting(p, xs + ys) == CountStarting(p, xs) + CountStarting(p, ys)
  {
    if ys == [] {
      assert xs + ys == xs;
    } else {
      var init := ys[..|ys| - 1];
      assert (xs + ys)[..|xs + ys| - 1] == xs + init;
      CountStartingConcat(p, xs, init);
    }
  }

  /**
   * When every string starts with `q`, and `q` and `p` differ at position
   * `k`, no string starts with `p`.
   */
  lemma {:induction false} CountStartingNone(p: string, q: string, k: nat, fs: seq<string>)
    requires k < |p| && k < |q| && p[k] != q[k]
    requires forall i :: 0 <= i < |fs| ==> q <= fs[i]
    ensures CountStarting(p, fs) == 0
  {
    if fs != [] {
      var last := fs[|fs| - 1];
      assert q <= last;
      assert last[k] == q[k];
      CountStartingNone(p, q, k, fs[..|fs| - 1]);
    }
  }

  lemma DroppedStartWith(prefix: string, names: seq<string>)
    ensures forall i :: 0 <= i < |names| ==> prefix <= Dropped(prefix, names)[i]
  {
    forall i | 0 <= i < |names| ensures prefix <= Dropped(prefix, names)[i] {
      assert Dropped(prefix, names)[i] == prefix + Quote(names[i]);
    }
  }

  /** A fragment that starts with its head. */
  lemma FieldFragmentStart(head: string, a: Attributes)
    ensures head <= FieldFragment(head, a)
  {
    ImplodeStartsWithFirst(" ", FieldTokens(head, a));
  }

  lemma AddFragmentStart(field: (string, Attributes))
    ensures "ADD `" <= AddFragment(field)
  {
    var head := AddHead(field.0);
    FieldFragmentStart(head, field.1);
    assert head == "ADD `" + (field.0 + "`");
  }

  lemma ChangeFragmentStart(field: (string, Attributes))
    ensures "CHANGE `" <= ChangeFragment(field)
  {
    var head := ChangeHead(field.0, field.1);
    FieldFragmentStart(head, field.1);
    assert head == "CHANGE `" + (field.0 + "`  " + Quote(field.1.name.GetOr(field.0)));
  }

  lemma AddedStartWith(fields: OrderedArray<Attributes>)
    ensures forall i :: 0 <= i < |fields| ==> "ADD `" <= Each(AddFragment, fields)[i]
  {
    forall i | 0 <= i < |fields| ensures "ADD `" <= Each(AddFragment, fields)[i] {
      EachAt(AddFragment, fields, i);
      AddFragmentStart(fields[i]);
    }
  }

  lemma ChangedStartWith(fields: OrderedArray<Attributes>)
    ensures forall i :: 0 <= i < |fields| ==> "CHANGE `" <= Each(ChangeFragment, fields)[i]
  {
    forall i | 0 <= i < |fields| ensures "CHANGE `" <= Each(ChangeFragment, fields)[i] {
      EachAt(ChangeFragment, fields, i);
      ChangeFragmentStart(fields[i]);
    }
  }

  /** Counting over the nine groups of the fragment list. */
  lemma CountByGroup(p: string, s: AlterState)
    ensures CountStarting(p, Fragments(s))
         == CountStarting(p, Dropped("DROP ", s.removeFields))
            + CountStarting(p, Each(AddFragment, s.addFields))
            + CountStarting(p, Each(ChangeFragment, s.changeFields))
            + CountStarting(p, Dropped("DROP INDEX ", s.removeKeys))
            + CountStarting(p, KeyGroup("ADD INDEX (", s.addKeys))
            + CountStarting(p, Dropped("DROP INDEX ", s.removeUniqueKeys))
            + CountStarting(p, KeyGroup("ADD UNIQUE (", s.addUniqueKeys))
            + CountStarting(p, Dropped("DROP PRIMARY KEY ", s.removePrimaryKeys))
            + CountStarting(p, KeyGroup("ADD PRIMARY KEY (", s.addPrimaryKeys))
  {
    var g1 := Dropped("DROP ", s.removeFields);
    var g2 := Each(AddFragment, s.addFields);
    var g3 := Each(ChangeFragment, s.changeFields);
    var g4 := Dropped("DROP INDEX ", s.removeKeys);
    var g5 := KeyGroup("ADD INDEX (", s.addKeys);
    var g6 := Dropped("DROP INDEX ", s.removeUniqueKeys);
    var g7 := KeyGroup("ADD UNIQUE (", s.addUniqueKeys);
    var g8 := Dropped("DROP PRIMARY KEY ", s.removePrimaryKeys);
    var g9 := KeyGroup("ADD PRIMARY KEY (", s.addPrimaryKeys);
    CountStartingConcat(p, g1, g2);
    CountStartingConcat(p, g1 + g2, g3);
    CountStartingConcat(p, g1 + g2 + g3, g4);
    CountStartingConcat(p, g1 + g2 + g3 + g4, g5);
    CountStartingConcat(p, g1 + g2 + g3 + g4 + g5, g6);
    CountStartingConcat(p, g1 + g2 + g3 + g4 + g5 + g6, g7);
    CountStartingConcat(p, g1 + g2 + g3 + g4 + g5 + g6 + g7, g8);
    CountStartingConcat(p, g1 + g2 + g3 + g4 + g5 + g6 + g7 + g8, g9);
  }

  /** The fragments of the column and drop groups never start like an `ADD <keyword> (` fragment. */
  lemma OtherGroupsCountZero(p: string, s: AlterState)
    requires |p| > 4 && p[0] == 'A' && p[4] != '`'
    ensures CountStarting(p, Dropped("DROP ", s.removeFields)) == 0
    ensures CountStarting(p, Each(AddFragment, s.addFields)) == 0
    ensures CountStarting(p, Each(ChangeFragment, s.changeFields)) == 0
    ensures CountStarting(p, Dropped("DROP INDEX ", s.removeKeys)) == 0
    ensures CountStarting(p, Dropped("DROP INDEX ", s.removeUniqueKeys)) == 0
    ensures CountStarting(p, Dropped("DROP PRIMARY KEY ", s.removePrimaryKeys)) == 0
  {
    DroppedCountZero(p, "DROP ", s.removeFields);
    AddedCountZero(p, s.addFields);
    ChangedCountZero(p, s.changeFields);
    DroppedCountZero(p, "DROP INDEX ", s.removeKeys);
    DroppedCountZero(p, "DROP INDEX ", s.removeUniqueKeys);
    DroppedCountZero(p, "DROP PRIMARY KEY ", s.removePrimaryKeys);
  }

  lemma DroppedCountZero(p: string, prefix: string, names: seq<string>)
    requires 0 < |p| && 0 < |prefix| && p[0] != prefix[0]
    ensures CountStarting(p, Dropped(prefix, names)) == 0
  {
    DroppedStartWith(prefix, names);
    CountStartingNone(p, prefix, 0, Dropped(prefix, names));
  }

  lemma AddedCountZero(p: string, fields: OrderedArray<Attributes>)
    requires |p| > 4 && p[4] != '`'
    ensures CountStarting(p, Each(AddFragment, fields)) == 0
  {
    AddedStartWith(fields);
    CountStartingNone(p, "ADD `", 4, Each(AddFragment, fields));
  }

  lemma ChangedCountZero(p: string, fields: OrderedArray<Attributes>)
    requires |p| > 0 && p[0] == 'A'
    ensures CountStarting(p, Each(ChangeFragment, fields)) == 0
  {
    ChangedStartWith(fields);
    CountStartingNone(p, "CHANGE `", 0, Each(ChangeFragment, fields));
  }

  /** A key group counts once for its own opening when it has keys. */
  lemma KeyGroupCountOwn(opening: string, keys: seq<string>)
    ensures CountStarting(opening, KeyGroup(opening, keys)) == if keys == [] then 0 else 1
  {
    var g := KeyGroup(opening, keys);
    if keys != [] {
      assert g[..0] == [];
      assert opening <= g[0];
    }
  }

  /** A key group never counts for a prefix that differs from its opening at position 4. */
  lemma KeyGroupCountOther(p: string, opening: string, keys: seq<string>)
    requires |p| > 4 && |opening| > 4 && p[4] != opening[4]
    ensures CountStarting(p, KeyGroup(opening, keys)) == 0
  {
    var g := KeyGroup(opening, keys);
    if keys != [] {
      assert opening <= g[0];
      CountStartingNone(p, opening, 4, g);
    }
  }

  /** Only the three key groups can hold a fragment starting `ADD <keyword>`. */
  lemma CountOnlyKeyGroups(p: string, s: AlterState)
    requires |p| > 4 && p[0] == 'A' && p[4] != '`'
    ensures CountStarting(p, Fragments(s))
         == CountStarting(p, KeyGroup("ADD INDEX (", s.addKeys))
            + CountStarting(p, KeyGroup("ADD UNIQUE (", s.addUniqueKeys))
            + CountStarting(p, KeyGroup("ADD PRIMARY KEY (", s.addPrimaryKeys))
  {
    CountByGroup(p, s);
    OtherGroupsCountZero(p, s);
  }

  lemma IndexGroupOnce(s: AlterState)
    ensures CountStarting("ADD INDEX (", Fragments(s)) == if s.addKeys == [] then 0 else 1
  {
    var p := "ADD INDEX (";
    assert p[0] == 'A' && p[4] != '`';
    CountOnlyKeyGroups(p, s);
    KeyGroupCountOwn("ADD INDEX (", s.addKeys);
    KeyGroupCountOther(p, "ADD UNIQUE (", s.addUniqueKeys);
    KeyGroupCountOther(p, "ADD PRIMARY KEY (", s.addPrimaryKeys);
  }

  lemma UniqueGroupOnce(s: AlterState)
    ensures CountStarting("ADD UNIQUE (", Fragments(s)) == if s.addUniqueKeys == [] then 0 else 1
  {
    var p := "ADD UNIQUE (";
    assert p[0] == 'A' && p[4] != '`';
    CountOnlyKeyGroups(p, s);
    KeyGroupCountOther(p, "ADD INDEX (", s.addKeys);
    KeyGroupCountOwn("ADD UNIQUE (", s.addUniqueKeys);
    KeyGroupCountOther(p, "ADD PRIMARY KEY (", s.addPrimaryKeys);
  }

  lemma PrimaryGroupOnce(s: AlterState)
    ensures CountStarting("ADD PRIMARY KEY (", Fragments(s)) == if s.addPrimaryKeys == [] then 0 else 1
  {
    var p := "ADD PRIMARY KEY (";
    assert p[0] == 'A' && p[4] != '`';
    CountOnlyKeyGroups(p, s);
    KeyGroupCountOther(p, "ADD INDEX (", s.addKeys);
    KeyGroupCountOther(p, "ADD UNIQUE (", s.addUniqueKeys);
    KeyGroupCountOwn("ADD PRIMARY KEY (", s.addPrimaryKeys);
  }

  /**
   * Each of ADD INDEX, ADD UNIQUE and ADD PRIMARY KEY occurs in the fragment
   * list once when keys of its kind were added, and not at all otherwise.
   */
  lemma KeyGroupsOnce(s: AlterState)
    ensures CountStarting("ADD INDEX (", Fragments(s)) == if s.addKeys == [] then 0 else 1
    ensures CountStarting("ADD UNIQUE (", Fragments(s)) == if s.addUniqueKeys == [] then 0 else 1
    ensures CountStarting("ADD PRIMARY KEY (", Fragments(s)) == if s.addPrimaryKeys == [] then 0 else 1
  {
    IndexGroupOnce(s);
    UniqueGroupOnce(s);
    PrimaryGroupOnce(s);
  }

  // ---------------------------------------------------------------------------
  // The statement
  // ---------------------------------------------------------------------------

  /** With nothing collected the statement is the bare header: `ALTER TABLE `t` ;`. */
  lemma RenderNothingCollected(s: AlterState)
    requires s.changeFields == [] && s.addFields == [] && s.removeFields == []
    requires s.addKeys == [] && s.removeKeys == []
    requires s.addUniqueKeys == [] && s.removeUniqueKeys == []
    requires s.addPrimaryKeys == [] && s.removePrimaryKeys == []
    ensures Render(s) == "ALTER TABLE `" + s.name.GetOr("") + "` ;"
  {
    assert Fragments(s) == [];
  }

  /** The statement text around its fragments, with the quoted name written out. */
  lemma Framed(n: string, body: string)
    ensures "ALTER TABLE " + Quote(n) + " " + body + ";" == "ALTER TABLE `" + n + "` " + (body + ";")
  {
    var head := "ALTER TABLE `" + n + "` ";
    assert "ALTER TABLE " + Quote(n) + " " == head by {
      assert "ALTER TABLE " + "`" == "ALTER TABLE `";
      assert "`" + " " == "` ";
    }
  }

  /** Every statement starts with the quoted table name and ends with a semicolon. */
  lemma RenderFrame(s: AlterState)
    ensures "ALTER TABLE `" + s.name.GetOr("") + "` " <= Render(s)
    ensures Render(s)[|Render(s)| - 1] == ';'
  {
    Framed(s.name.GetOr(""), Implode(", \n", Fragments(s)));
  }

  // ---------------------------------------------------------------------------
  // A worked statement
  // ---------------------------------------------------------------------------

  /** The column `age` of the worked statement: an INT that may not be NULL. */
  const Age := NoAttributes.(fieldType := Some("INT"), nullable := Some(false))

  /** A column with only a type and `'null' => false`: the head, the type, `NOT NULL`. */
  lemma TypedNotNull(head: string, t: string)
    ensures FieldFragment(head, NoAttributes.(fieldType := Some(t), nullable := Some(false)))
         == head + (" " + t) + (" " + NotNull)
  {
    var a := NoAttributes.(fieldType := Some(t), nullable := Some(false));
    FieldFragmentText(head, a);
    assert Spaced(TypeToken(a)) == " " + t;
    assert Spaced(NullToken(a)) == " " + NotNull;
    assert Spaced(AttributeToken(a)) == Spaced(DefaultToken(a)) == Spaced(AutoIncrementToken(a)) == "";
  }

  lemma AgeFragment()
    ensures AddFragment(("age", Age)) == "ADD `age`" + " INT" + " NOT NULL"
  {
    TypedNotNull(AddHead("age"), "INT");
    assert AddHead("age") == "ADD `age`";
  }

  lemma LegacyFragment()
    ensures Dropped("DROP ", ["legacy"]) == ["DROP `legacy`"]
  {
    assert "DROP " + Quote("legacy") == "DROP `legacy`";
  }

  lemma UsersRender(s: AlterState)
    requires s == AlterState(Some("users"), [], [("age", Age)], ["legacy"], [], [], [], [], [], [])
    ensures Render(s) == "ALTER TABLE `users` " + ("DROP `legacy`" + ", \n" + ("ADD `age`" + " INT" + " NOT NULL")) + ";"
  {
    var added := "ADD `age`" + " INT" + " NOT NULL";
    var fs := ["DROP `legacy`"] + [added];
    assert Fragments(s) == fs by {
      AgeFragment();
      LegacyFragment();
      EachSnoc(AddFragment, [], ("age", Age));
      assert Each(AddFragment, s.addFields) == [added];
      assert Fragments(s) == ["DROP `legacy`"] + [added] + [] + [] + [] + [] + [] + [] + [];
    }
    var body := Implode(", \n", fs);
    assert body == "DROP `legacy`" + ", \n" + added by {
      ImplodeSnoc(", \n", ["DROP `legacy`"], added);
    }
    Framed("users", body);
  }

  /**
   * Naming the table `users`, adding an `INT NOT NULL` column `age` and
   * dropping `legacy`: the drop comes first, then the addition, separated by
   * a comma and a newline.
   */
  method UsersExample() returns (query: string)
    ensures query == "ALTER TABLE `users` " + ("DROP `legacy`" + ", \n" + ("ADD `age`" + " INT" + " NOT NULL")) + ";"
  {
    var alter := new Alter();
    alter.SetName("users");
    alter.AddField("age", Age);
    alter.RemoveField("legacy");
    query := alter.GetQuery();
    UsersRender(alter.State());
  }
}
