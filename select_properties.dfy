/**
 * What the `SELECT` builder promises, stated about `SqlSelect.Render`.
 *
 * The space-collapsing pass is characterised first: it leaves text without
 * a double space alone, shortens any other text, works piecewise across a
 * boundary that does not follow a space, and turns a run of n spaces into
 * ceil(n/2) spaces. From that follows the shape of every statement whose
 * sections are trimmed: the sections in template order, each present one
 * after a single space, with the empty ones leaving runs of spaces behind
 * (`Squeeze`).
 */
module SqlSelectProperties {
  import opened Wrappers
  import opened Php
  import opened SqlSelect

  // ---------------------------------------------------------------------------
  // The collapsing pass
  // ---------------------------------------------------------------------------

  /** `n` spaces. */
  function Spaces(n: nat): (r: string)
    ensures |r| == n && forall i :: 0 <= i < n ==> r[i] == ' '
  {
    seq(n, i => ' ')
  }

  /** No two neighbouring characters are both spaces. */
  predicate NoDouble(t: string) {
    forall i :: 0 <= i < |t| - 1 ==> !(t[i] == ' ' && t[i + 1] == ' ')
  }

  /** Neither the first nor the last character is a space. */
  predicate Trimmed(t: string) {
    t == [] || (t[0] != ' ' && t[|t| - 1] != ' ')
  }

  /** The pass never lengthens the text, and shortens it when there is a double space. */
  lemma {:induction false} CollapseShortens(t: string)
    ensures |Collapse(t)| <= |t|
    ensures !NoDouble(t) ==> |Collapse(t)| < |t|
    decreases |t|
  {
    if |t| >= 2 {
      if "  " <= t {
        CollapseShortens(t[2..]);
      } else {
        CollapseShortens(t[1..]);
        if !NoDouble(t) {
          var i :| 0 <= i < |t| - 1 && t[i] == ' ' && t[i + 1] == ' ';
          assert t[0] == ' ' && t[1] == ' ' ==> "  " <= t;
          assert t[1..][i - 1] == ' ' && t[1..][i] == ' ';
        }
      }
    }
  }

  /** Text without a double space is left as it is. */
  lemma {:induction false} CollapseKeeps(t: string)
    requires NoDouble(t)
    ensures Collapse(t) == t
    decreases |t|
  {
    if |t| >= 2 {
      assert !("  " <= t) by {
        assert !(t[0] == ' ' && t[1] == ' ');
      }
      assert NoDouble(t[1..]) by {
        forall i | 0 <= i < |t[1..]| - 1 ensures !(t[1..][i] == ' ' && t[1..][i + 1] == ' ') {
          assert t[1..][i] == t[i + 1] && t[1..][i + 1] == t[i + 2];
        }
      }
      CollapseKeeps(t[1..]);
      assert t == [t[0]] + t[1..];
    }
  }

  /** The pass changes a text exactly when the text holds a double space. */
  lemma CollapseUnchanged(t: string)
    ensures Collapse(t) == t <==> NoDouble(t)
  {
    CollapseShortens(t);
    if NoDouble(t) {
      CollapseKeeps(t);
    }
  }

  /**
   * The pass splits at a boundary that does not follow a space: no pair of
   * spaces can straddle it.
   */
  lemma {:induction false} CollapseConcat(a: string, b: string)
    requires a == [] || a[|a| - 1] != ' '
    ensures Collapse(a + b) == Collapse(a) + Collapse(b)
    decreases |a|
  {
    if a == [] {
      assert a + b == b;
    } else if |a| == 1 {
      var ab := a + b;
      assert !("  " <= ab) by {
        assert ab[0] == a[0] && a[0] != ' ';
      }
      if |ab| >= 2 {
        assert ab[1..] == b;
      } else {
        assert b == [];
      }
    } else {
      var ab := a + b;
      assert ab[..2] == a[..2];
      if "  " <= a {
        assert ab[2..] == a[2..] + b;
        CollapseConcat(a[2..], b);
      } else {
        assert ab[1..] == a[1..] + b;
        CollapseConcat(a[1..], b);
        assert !("  " <= ab);
      }
    }
  }

  /** A run of `n` spaces before a non-space (or the end) becomes ceil(n/2) spaces. */
  lemma {:induction false} CollapseRun(n: nat, t: string)
    requires t == [] || t[0] != ' '
    ensures Collapse(Spaces(n) + t) == Spaces((n + 1) / 2) + Collapse(t)
    decreases n
  {
    var st := Spaces(n) + t;
    if n >= 2 {
      assert st[..2] == "  ";
      assert st[2..] == Spaces(n - 2) + t;
      CollapseRun(n - 2, t);
      assert Spaces((n + 1) / 2) == " " + Spaces((n - 1) / 2);
    } else if n == 1 {
      if t == [] {
        assert st == " ";
      } else {
        assert st[1..] == t;
        assert !("  " <= st) by {
          assert st[1] == t[0];
        }
      }
    } else {
      assert st == t;
    }
  }

  // ---------------------------------------------------------------------------
  // The shape of a statement
  // ---------------------------------------------------------------------------

  /** The sections after `FROM`, in template order: table, joins, WHERE, ORDER BY, LIMIT, GROUP BY. */
  function Sections(s: SelectState): seq<string> {
    [s.from.GetOr(""), JoinsText(s), WhereText(s), SortText(s), LimitText(s), GroupText(s)]
  }

  /** The sections as the template lays them out: each after one space. */
  function Spread(xs: seq<string>): string {
    if xs == [] then "" else Spread(xs[..|xs| - 1]) + " " + xs[|xs| - 1]
  }

  /** Spread read from the front. */
  lemma {:induction false} SpreadCons(x: string, xs: seq<string>)
    ensures Spread([x] + xs) == " " + x + Spread(xs)
  {
    var all := [x] + xs;
    if xs == [] {
      assert all[..0] == [];
    } else {
      var init := xs[..|xs| - 1];
      assert all[..|all| - 1] == [x] + init;
      SpreadCons(x, init);
      var a, b := " " + x, Spread(init);
      assert a + b + " " + xs[|xs| - 1] == a + (b + " " + xs[|xs| - 1]);
    }
  }

  /**
   * The reference description of what the pass leaves of the sections: the
   * spaces before each present section and before the semicolon form one
   * run per gap, and a run of `n` spaces is left as ceil(n/2) spaces; a
   * present section is itself collapsed. `pending` spaces are already waiting.
   */
  function Squeeze(pending: nat, xs: seq<string>): string
    decreases |xs|
  {
    if xs == [] then Spaces((pending + 1) / 2) + ";"
    else if xs[0] == "" then Squeeze(pending + 1, xs[1..])
    else Spaces((pending + 2) / 2) + Collapse(xs[0]) + Squeeze(0, xs[1..])
  }

  lemma {:induction false} CollapseSpread(pending: nat, xs: seq<string>)
    requires forall i :: 0 <= i < |xs| ==> Trimmed(xs[i])
    ensures Collapse(Spaces(pending) + (Spread(xs) + ";")) == Squeeze(pending, xs)
    decreases |xs|
  {
    if xs == [] {
      assert Spread(xs) + ";" == ";";
      CollapseRun(pending, ";");
      assert Collapse(";") == ";";
    } else {
      var x, rest := xs[0], xs[1..];
      var tail := Spread(rest) + ";";
      assert Trimmed(x);
      assert forall i :: 0 <= i < |rest| ==> Trimmed(rest[i]) by {
        forall i | 0 <= i < |rest| ensures Trimmed(rest[i]) {
          assert rest[i] == xs[i + 1];
        }
      }
      assert Spaces(pending) + (Spread(xs) + ";") == Spaces(pending + 1) + (x + tail) by {
        assert xs == [x] + rest;
        SpreadCons(x, rest);
      }
      if x == "" {
        assert Spaces(pending + 1) + (x + tail) == Spaces(pending + 1) + tail;
        CollapseSpread(pending + 1, rest);
      } else {
        var run := Spaces((pending + 2) / 2);
        assert Collapse(Spaces(pending + 1) + (x + tail)) == run + Collapse(x + tail) by {
          CollapseRun(pending + 1, x + tail);
        }
        assert Collapse(x + tail) == Collapse(x) + Collapse(tail) by {
          CollapseConcat(x, tail);
        }
        assert Collapse(tail) == Squeeze(0, rest) by {
          assert Spaces(0) + tail == tail;
          CollapseSpread(0, rest);
        }
        Assoc(run, Collapse(x), Squeeze(0, rest));
      }
    }
  }

  lemma Assoc(a: string, b: string, c: string)
    ensures a + b + c == a + (b + c)
  {
  }

  /** The template: the head up to `FROM`, then the spread sections and the semicolon. */
  lemma TemplateSplit(s: SelectState)
    ensures Template(s) == "SELECT " + s.select + " FROM" + (Spread(Sections(s)) + ";")
  {
    var xs := Sections(s);
    var h := "SELECT " + s.select + " FROM";
    var f, j, w, so, l, g := xs[0], xs[1], xs[2], xs[3], xs[4], xs[5];
    var s1 := Spread([f]);
    assert [f][..0] == [];
    assert Spread([]) == "";
    assert s1 == Spread([]) + " " + f;
    assert h + s1 == "SELECT " + s.select + " FROM " + f by {
      assert "" + " " + f == " " + f;
      Assoc(h, " ", f);
      assert " FROM" + " " == " FROM ";
      Assoc("SELECT " + s.select, " FROM", " ");
    }
    var s2 := s1 + " " + j;
    assert [f, j][..1] == [f];
    assert Spread([f, j]) == s2;
    Assoc(h, s1 + " ", j);
    Assoc(h, s1, " ");
    var s3 := s2 + " " + w;
    assert [f, j, w][..2] == [f, j];
    assert Spread([f, j, w]) == s3;
    Assoc(h, s2 + " ", w);
    Assoc(h, s2, " ");
    var s4 := s3 + " " + so;
    assert [f, j, w, so][..3] == [f, j, w];
    assert Spread([f, j, w, so]) == s4;
    Assoc(h, s3 + " ", so);
    Assoc(h, s3, " ");
    var s5 := s4 + " " + l;
    assert [f, j, w, so, l][..4] == [f, j, w, so];
    assert Spread([f, j, w, so, l]) == s5;
    Assoc(h, s4 + " ", l);
    Assoc(h, s4, " ");
    var s6 := s5 + " " + g;
    assert [f, j, w, so, l, g][..5] == [f, j, w, so, l];
    assert Spread([f, j, w, so, l, g]) == s6;
    Assoc(h, s5 + " ", g);
    Assoc(h, s5, " ");
    assert xs == [f, j, w, so, l, g];
    Assoc(h, s6, ";");
  }

  /** The head `SELECT <select> FROM` as the pass sees it: a word, a space, the list, a space, a word. */
  lemma HeadSplit(select: string)
    ensures "SELECT " + select + " FROM" == "SELECT" + (" " + (select + (" " + "FROM")))
  {
    assert "SELECT " == "SELECT" + " ";
    assert " FROM" == " " + "FROM";
    Assoc("SELECT", " ", select);
    Assoc("SELECT", " " + select, " FROM");
    Assoc(" ", select, " FROM");
  }

  /** The pass leaves the head's words and single spaces and collapses the select list. */
  lemma CollapseHead(select: string)
    requires select != [] && Trimmed(select)
    ensures Collapse("SELECT " + select + " FROM") == "SELECT " + Collapse(select) + " FROM"
  {
    HeadSplit(select);
    HeadSplit(Collapse(select));
    var from := " " + "FROM";
    CollapseConcat("SELECT", " " + (select + from));
    assert NoDouble("SELECT") && NoDouble("FROM");
    CollapseKeeps("SELECT");
    CollapseKeeps("FROM");
    assert Spaces(1) == " ";
    CollapseRun(1, select + from);
    CollapseConcat(select, from);
    CollapseRun(1, "FROM");
  }

  /**
   * Every statement whose select list is non-empty and whose sections are
   * trimmed reads `SELECT <select> FROM`, then the sections in the fixed
   * order joins, WHERE, ORDER BY, LIMIT, GROUP BY, as `Squeeze` lays them out.
   */
  lemma RenderShape(s: SelectState)
    requires s.select != [] && Trimmed(s.select)
    requires forall i :: 0 <= i < |Sections(s)| ==> Trimmed(Sections(s)[i])
    ensures Render(s) == "SELECT " + Collapse(s.select) + " FROM" + Squeeze(0, Sections(s))
  {
    var h := "SELECT " + s.select + " FROM";
    var tail := Spread(Sections(s)) + ";";
    TemplateSplit(s);
    assert h[|h| - 1] == 'M';
    CollapseConcat(h, tail);
    CollapseHead(s.select);
    assert Spaces(0) + tail == tail;
    CollapseSpread(0, Sections(s));
  }

  /** Empty sections only add to the run of spaces before the semicolon. */
  lemma {:induction false} SqueezeBlanks(pending: nat, xs: seq<string>)
    requires forall i :: 0 <= i < |xs| ==> xs[i] == []
    ensures Squeeze(pending, xs) == Spaces((pending + |xs| + 1) / 2) + ";"
    decreases |xs|
  {
    if xs != [] {
      SqueezeBlanks(pending + 1, xs[1..]);
    }
  }

  /**
   * With only a select list and a table, the five empty sections leave a
   * run of five spaces before the semicolon, of which three remain.
   */
  lemma BareQuery(s: SelectState)
    requires s.select != [] && Trimmed(s.select)
    requires s.from.Some? && s.from.value != [] && Trimmed(s.from.value)
    requires s.joins == [] && s.where == [] && s.sortBy == [] && s.group == [] && s.page.None?
    ensures Render(s) == "SELECT " + Collapse(s.select) + " FROM " + Collapse(s.from.value) + "   ;"
  {
    RenderShape(s);
    var xs := Sections(s);
    assert xs == [s.from.value, "", "", "", "", ""];
    assert xs[1..] == ["", "", "", "", ""];
    assert Squeeze(0, xs) == Spaces(1) + Collapse(s.from.value) + Squeeze(0, xs[1..]);
    SqueezeBlanks(0, xs[1..]);
    assert Spaces(1) == " " && Spaces(3) + ";" == "   ;";
    var h, f := "SELECT " + Collapse(s.select), Collapse(s.from.value);
    Assoc(h + " FROM", " " + f, "   ;");
    Assoc(h + " FROM", " ", f);
    assert " FROM" + " " == " FROM ";
    Assoc(h, " FROM", " ");
  }

  /** Each text collapsed. */
  function CollapseAll(xs: seq<string>): (r: seq<string>)
    ensures |r| == |xs| && forall i :: 0 <= i < |xs| ==> r[i] == Collapse(xs[i])
  {
    seq(|xs|, i requires 0 <= i < |xs| => Collapse(xs[i]))
  }

  /** When no section is empty, every section follows a single space and the semicolon follows the last. */
  lemma {:induction false} SqueezePresent(xs: seq<string>)
    requires forall i :: 0 <= i < |xs| ==> xs[i] != []
    ensures Squeeze(0, xs) == Spread(CollapseAll(xs)) + ";"
    decreases |xs|
  {
    if xs == [] {
      assert Spaces(0) + ";" == ";";
    } else {
      var c, rest := CollapseAll(xs), CollapseAll(xs[1..]);
      SqueezePresent(xs[1..]);
      assert Squeeze(0, xs) == Spaces(1) + c[0] + Squeeze(0, xs[1..]);
      assert c == [c[0]] + rest;
      SpreadCons(c[0], rest);
      assert Spaces(1) == " ";
      Assoc(" " + c[0], Spread(rest), ";");
    }
  }

  /**
   * With every section present and trimmed, each section follows a single
   * space, in template order, and the semicolon follows GROUP BY directly.
   */
  lemma FullQuery(s: SelectState)
    requires s.select != [] && Trimmed(s.select)
    requires forall i :: 0 <= i < |Sections(s)| ==> Sections(s)[i] != [] && Trimmed(Sections(s)[i])
    ensures Render(s) == "SELECT " + Collapse(s.select) + " FROM" + (Spread(CollapseAll(Sections(s))) + ";")
  {
    RenderShape(s);
    SqueezePresent(Sections(s));
  }

  // ---------------------------------------------------------------------------
  // The sections
  // ---------------------------------------------------------------------------

  /** Each `where` predicate is added at the end of the WHERE clause, after ` AND `. */
  lemma WhereSnoc(s: SelectState, w: string)
    ensures WhereText(s.(where := s.where + [w]))
         == if s.where == [] then "WHERE " + w else WhereText(s) + (" AND " + w)
  {
    ImplodeSnoc(" AND ", s.where, w);
    Assoc("WHERE ", Implode(" AND ", s.where), " AND " + w);
  }

  /** Each `sortBy` entry is added at the end of the ORDER BY clause, after a comma. */
  lemma SortSnoc(s: SelectState, e: string)
    ensures SortText(s.(sortBy := s.sortBy + [e]))
         == if s.sortBy == [] then "ORDER BY " + e else SortText(s) + (", " + e)
  {
    ImplodeSnoc(", ", s.sortBy, e);
    Assoc("ORDER BY ", Implode(", ", s.sortBy), ", " + e);
  }

  /** Each join fragment is added after the earlier ones, separated by a space. */
  lemma JoinsSnoc(s: SelectState, j: string)
    ensures JoinsText(s.(joins := s.joins + [j]))
         == if s.joins == [] then j else JoinsText(s) + (" " + j)
  {
    ImplodeSnoc(" ", s.joins, j);
  }

  /** Text of an integer, as the parser of integers accepts it. */
  predicate IntText(t: string) {
    |t| > 0 && (t[0] == '-' || IsDigit(t[0])) && forall i :: 0 < i < |t| ==> IsDigit(t[i])
  }

  /**
   * A LIMIT clause reads back: after `LIMIT ` comes the page, then a comma,
   * then the length, each as the decimal text of the value that was set.
   */
  lemma LimitReadsBack(page: int, length: int, s: SelectState)
    requires s.page == Some(page) && s.length == Some(length)
    ensures var t, k := LimitText(s), |IntToString(page)|;
      |t| > 7 + k && t[..6] == "LIMIT " && t[6 + k] == ','
      && IntText(t[6..6 + k]) && ParseInt(t[6..6 + k]) == page
      && IntText(t[7 + k..]) && ParseInt(t[7 + k..]) == length
  {
    var p, l := IntToString(page), IntToString(length);
    var t := LimitText(s);
    ParseIntToString(page);
    ParseIntToString(length);
    assert t == "LIMIT " + p + "," + l;
    assert t[6..6 + |p|] == p;
    assert t[7 + |p|..] == l;
  }

  /** Two limits render alike only when their pages and their lengths are equal. */
  lemma LimitInjective(s1: SelectState, s2: SelectState)
    requires s1.page.Some? && s1.length.Some? && s2.page.Some? && s2.length.Some?
    requires LimitText(s1) == LimitText(s2)
    ensures s1.page == s2.page && s1.length == s2.length
  {
    var p1, p2 := s1.page.value, s2.page.value;
    LimitReadsBack(p1, s1.length.value, s1);
    LimitReadsBack(p2, s2.length.value, s2);
    var t := LimitText(s1);
    IntToStringDigits(p1);
    IntToStringDigits(p2);
    var k1, k2 := |IntToString(p1)|, |IntToString(p2)|;
    // The page is digits only after its first character, so the comma is the first one after `LIMIT `.
    var u := t[6..];
    assert u[..k1] == IntToString(p1) && u[k1] == ',';
    assert u[..k2] == IntToString(p2) && u[k2] == ',';
  }

  /** A linkage `word(where)`, where `word` ends with the parenthesis, loses only the double spaces of `where`. */
  lemma CollapseLinkage(word: string, where: string)
    requires NoDouble(word) && word != [] && word[|word| - 1] == '('
    requires Trimmed(where)
    ensures Collapse(word + where + ")") == word + Collapse(where) + ")"
  {
    assert NoDouble(")");
    CollapseKeeps(word);
    CollapseKeeps(")");
    CollapseConcat(where, ")");
    Assoc(word, where, ")");
    CollapseConcat(word, where + ")");
    Assoc(word, Collapse(where), ")");
  }

  /**
   * The two linkages of a join: `USING (w)` follows the table after one space;
   * `ON (w)` follows after two, which the pass turns into one.
   */
  lemma JoinLinkage(joinType: string, table: string, where: string)
    requires table != [] && table[|table| - 1] != ' ' && Trimmed(where)
    ensures Collapse(JoinFragment(joinType, table, where, true))
         == Collapse(joinType + " JOIN " + table) + (" " + ("USING (" + Collapse(where) + ")"))
    ensures Collapse(JoinFragment(joinType, table, where, false))
         == Collapse(joinType + " JOIN " + table) + (" " + ("ON (" + Collapse(where) + ")"))
  {
    var a := joinType + " JOIN " + table;
    assert a[|a| - 1] == table[|table| - 1];
    UsingJoin(a, where);
    OnJoin(a, where);
  }

  lemma UsingJoin(a: string, where: string)
    requires a != [] && a[|a| - 1] != ' ' && Trimmed(where)
    ensures Collapse(a + " " + ("USING (" + where + ")")) == Collapse(a) + (" " + ("USING (" + Collapse(where) + ")"))
  {
    var u := "USING (" + where + ")";
    assert Collapse(u) == "USING (" + Collapse(where) + ")" by {
      assert NoDouble("USING (");
      CollapseLinkage("USING (", where);
    }
    assert Collapse(a + " " + u) == Collapse(a) + Collapse(" " + u) by {
      Assoc(a, " ", u);
      CollapseConcat(a, " " + u);
    }
    assert Collapse(" " + u) == " " + Collapse(u) by {
      assert Spaces(1) == " ";
      CollapseRun(1, u);
    }
  }

  lemma OnJoin(a: string, where: string)
    requires a != [] && a[|a| - 1] != ' ' && Trimmed(where)
    ensures Collapse(a + " " + (" ON (" + where + ")")) == Collapse(a) + (" " + ("ON (" + Collapse(where) + ")"))
  {
    var o := "ON (" + where + ")";
    assert Collapse(o) == "ON (" + Collapse(where) + ")" by {
      assert NoDouble("ON (");
      CollapseLinkage("ON (", where);
    }
    assert a + " " + (" ON (" + where + ")") == a + (Spaces(2) + o) by {
      assert " ON (" == " " + "ON (";
      Assoc(" ", "ON (", where);
      Assoc(" ", "ON (" + where, ")");
      Assoc(a, " ", " " + o);
      assert " " + (" " + o) == Spaces(2) + o;
    }
    assert Collapse(a + (Spaces(2) + o)) == Collapse(a) + Collapse(Spaces(2) + o) by {
      CollapseConcat(a, Spaces(2) + o);
    }
    assert Collapse(Spaces(2) + o) == " " + Collapse(o) by {
      assert Spaces(1) == " ";
      CollapseRun(2, o);
    }
  }

  // ---------------------------------------------------------------------------
  // Statements with some sections missing
  // ---------------------------------------------------------------------------

  /** A LIMIT clause has one space, after `LIMIT`, and does not start or end with a space. */
  lemma LimitClean(s: SelectState)
    requires s.page.Some? && s.length.Some?
    ensures LimitText(s) != [] && Trimmed(LimitText(s)) && NoDouble(LimitText(s))
  {
    var p, l := IntToString(s.page.value), IntToString(s.length.value);
    var t := LimitText(s);
    ParseIntToString(s.page.value);
    ParseIntToString(s.length.value);
    assert t == "LIMIT " + p + "," + l;
    forall i | 0 <= i < |t| && i != 5 ensures t[i] != ' ' {
      if i >= 6 + |p| + 1 {
        assert t[i] == l[i - 7 - |p|];
      } else if i == 6 + |p| {
        assert t[i] == ',';
      } else if i >= 6 {
        assert t[i] == p[i - 6];
      } else {
        assert t[i] == "LIMIT "[i];
      }
    }
  }

  /** The gaps of a statement with a table, a limit and a group list only. */
  lemma SqueezeLimitGroup(f: string, l: string, g: string)
    requires f != [] && l != [] && g != []
    ensures Squeeze(0, [f, "", "", "", l, g])
         == " " + Collapse(f) + ("  " + Collapse(l) + (" " + Collapse(g) + ";"))
  {
    var xs := [f, "", "", "", l, g];
    assert Spaces(0) + ";" == ";" && Spaces(1) == " " && Spaces(2) == "  ";
    assert Squeeze(0, [g]) == " " + Collapse(g) + ";" by {
      assert [g][1..] == [];
    }
    assert Squeeze(3, [l, g]) == "  " + Collapse(l) + (" " + Collapse(g) + ";") by {
      assert [l, g][1..] == [g];
    }
    assert xs[1..][1..][1..][1..] == [l, g];
    assert Squeeze(0, xs[1..]) == Squeeze(1, xs[1..][1..]);
    assert Squeeze(1, xs[1..][1..]) == Squeeze(2, xs[1..][1..][1..]);
  }

  /**
   * LIMIT comes before GROUP BY. With only a select list, a table, a limit
   * and a group list, the three empty sections between the table and LIMIT
   * leave a run of four spaces, of which two remain.
   */
  lemma LimitBeforeGroup(s: SelectState)
    requires s.select != [] && Trimmed(s.select)
    requires s.from.Some? && s.from.value != [] && Trimmed(s.from.value)
    requires s.joins == [] && s.where == [] && s.sortBy == []
    requires s.page.Some? && s.length.Some?
    requires s.group != [] && Trimmed(GroupText(s))
    ensures Render(s)
         == "SELECT " + Collapse(s.select) + " FROM"
            + (" " + Collapse(s.from.value) + ("  " + LimitText(s) + (" " + Collapse(GroupText(s)) + ";")))
  {
    var f, l, g := s.from.value, LimitText(s), GroupText(s);
    assert Sections(s) == [f, "", "", "", l, g];
    assert Trimmed(l) && Collapse(l) == l by {
      LimitClean(s);
      CollapseKeeps(l);
    }
    SqueezeLimitGroup(f, l, g);
    RenderShape(s);
  }

  /** The gaps of a statement with a table, a WHERE clause, an ORDER BY clause and a limit only. */
  lemma SqueezeFilteredPage(f: string, w: string, o: string, l: string)
    requires f != [] && w != [] && o != [] && l != []
    ensures Squeeze(0, [f, "", w, o, l, ""])
         == " " + Collapse(f) + (" " + Collapse(w) + (" " + Collapse(o) + (" " + Collapse(l) + " ;")))
  {
    var xs := [f, "", w, o, l, ""];
    assert Spaces(1) == " " && Spaces(1) + ";" == " ;";
    assert Squeeze(0, [""]) == " ;" by {
      assert Squeeze(0, [""]) == Squeeze(1, [""][1..]);
    }
    assert Squeeze(0, [l, ""]) == " " + Collapse(l) + " ;" by {
      assert [l, ""][1..] == [""];
    }
    assert Squeeze(0, [o, l, ""]) == " " + Collapse(o) + (" " + Collapse(l) + " ;") by {
      assert [o, l, ""][1..] == [l, ""];
    }
    assert Squeeze(1, [w, o, l, ""]) == " " + Collapse(w) + (" " + Collapse(o) + (" " + Collapse(l) + " ;")) by {
      assert [w, o, l, ""][1..] == [o, l, ""];
    }
    assert xs[1..][1..] == [w, o, l, ""];
    assert Squeeze(0, xs[1..]) == Squeeze(1, xs[1..][1..]);
  }

  /**
   * A filtered, sorted page of one table: the empty joins section and the
   * empty GROUP BY section each leave a run of two spaces, of which one
   * remains, so LIMIT is followed by ` ;`.
   */
  lemma FilteredPage(s: SelectState)
    requires s.select != [] && Trimmed(s.select)
    requires s.from.Some? && s.from.value != [] && Trimmed(s.from.value)
    requires s.joins == [] && s.group == [] && s.page.Some? && s.length.Some?
    requires s.where != [] && Trimmed(WhereText(s))
    requires s.sortBy != [] && Trimmed(SortText(s))
    ensures Render(s)
         == "SELECT " + Collapse(s.select) + " FROM"
            + (" " + Collapse(s.from.value) + (" " + Collapse(WhereText(s))
            + (" " + Collapse(SortText(s)) + (" " + LimitText(s) + " ;"))))
  {
    var f, w, o, l := s.from.value, WhereText(s), SortText(s), LimitText(s);
    assert Sections(s) == [f, "", w, o, l, ""];
    assert Trimmed(l) && Collapse(l) == l by {
      LimitClean(s);
      CollapseKeeps(l);
    }
    SqueezeFilteredPage(f, w, o, l);
    RenderShape(s);
  }

  // ---------------------------------------------------------------------------
  // Worked statements
  // ---------------------------------------------------------------------------

  /**
   * `select("id, name")->from("users")`: the five empty sections leave three
   * spaces before the semicolon.
   */
  method IdNameExample() returns (query: string)
    ensures query == "SELECT " + "id, name" + " FROM " + "users" + "   ;"
  {
    var q := new Select(One("id, name"));
    q.From("users");
    query := q.GetQuery();
    IdNameSingleSpaced();
    CollapseKeeps("id, name");
    CollapseKeeps("users");
    BareQuery(q.State());
  }

  lemma IdNameSingleSpaced()
    ensures NoDouble("id, name") && NoDouble("users")
  {
  }

  /** The state of the builder for a filtered, sorted first page of ten users. */
  predicate ActiveUsersState(s: SelectState) {
    s == SelectState("*", Some("users"), [], ["active = 1"], [SortFragment("created_at", "DESC")], [], Some(0), Some(10))
  }

  /** Its WHERE, ORDER BY and LIMIT sections. */
  lemma ActiveUsersSections(s: SelectState)
    requires ActiveUsersState(s)
    ensures WhereText(s) == "WHERE active = 1"
    ensures SortText(s) == "ORDER BY created_at DESC"
    ensures LimitText(s) == "LIMIT 0,10"
  {
    assert Implode(" AND ", s.where) == "active = 1";
    assert Implode(", ", s.sortBy) == "created_at DESC";
    assert IntToString(0) == "0" && IntToString(10) == "10";
  }

  /** Its texts have no double space. */
  lemma ActiveUsersSingleSpaced()
    ensures NoDouble("*") && NoDouble("users")
    ensures NoDouble("WHERE active = 1") && NoDouble("ORDER BY created_at DESC")
  {
  }

  /** The statement for a filtered, sorted first page of ten users. */
  lemma ActiveUsersRender(s: SelectState)
    requires ActiveUsersState(s)
    ensures Render(s) == "SELECT " + "*" + " FROM" + (" " + "users" + (" " + "WHERE active = 1"
                         + (" " + "ORDER BY created_at DESC" + (" " + "LIMIT 0,10" + " ;"))))
  {
    ActiveUsersSections(s);
    ActiveUsersSingleSpaced();
    CollapseKeeps("*");
    CollapseKeeps("users");
    CollapseKeeps("WHERE active = 1");
    CollapseKeeps("ORDER BY created_at DESC");
    FilteredPage(s);
  }

  /**
   * `from("users")->where("active = 1")->sortBy("created_at", "DESC")->limit(0, 10)`
   * on a builder that selects everything.
   */
  method ActiveUsersExample() returns (query: string)
    ensures query == "SELECT " + "*" + " FROM" + (" " + "users" + (" " + "WHERE active = 1"
                     + (" " + "ORDER BY created_at DESC" + (" " + "LIMIT 0,10" + " ;"))))
  {
    var q := new Select();
    q.From("users");
    q.Where(One("active = 1"));
    q.SortBy("created_at", "DESC");
    q.Limit(0, 10);
    query := q.GetQuery();
    assert q.State().where == ["active = 1"];
    assert q.State().sortBy == [SortFragment("created_at", "DESC")];
    ActiveUsersRender(q.State());
  }
}
