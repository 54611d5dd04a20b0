/** Two texts of a model's, and what the gates make of them: an insertion into a table named with
    its database, and a deletion behind `with`. */
module SqlTexts {
  import opened Basics
  import opened SqlGate

  // ---------------------------------------------------------------- a qualified name

  lemma {:induction false} WordIsAbsent(s: string, word: string, wide: char -> bool, i: nat)
    requires |word| >= 2 && i <= |s|
    requires forall k :: 0 <= k < |s| - 1 ==> !(Folds(s[k], word[0]) && Folds(s[k + 1], word[1]))
    ensures !WordFrom(s, word, wide, i)
    decreases |s| - i
  {
    if i + |word| <= |s| {
      var rest := word[1..];
      assert rest[0] == word[1];
      assert LettersAt(s, word, i) ==> LettersAt(s, rest, i + 1);
      WordIsAbsent(s, word, wide, i + 1);
    }
  }

  /** A statement that names another database than the connection's. */
  const QUALIFIED_INSERT := "insert into shop.orders values (1)"

  lemma QualifiedHasNoDrop(wide: char -> bool)
    ensures !HasWord(QUALIFIED_INSERT, "drop", wide)
  {
    WordIsAbsent(QUALIFIED_INSERT, "drop", wide, 0);
  }

  lemma QualifiedHasNoTruncate(wide: char -> bool)
    ensures !HasWord(QUALIFIED_INSERT, "truncate", wide)
  {
    WordIsAbsent(QUALIFIED_INSERT, "truncate", wide, 0);
  }

  lemma QualifiedIsStatement()
    ensures IsStatement(QUALIFIED_INSERT) && QUALIFIED_INSERT == "insert " + QUALIFIED_INSERT[7..]
  {
    var s := QUALIFIED_INSERT;
    assert forall i :: 0 <= i < |s| ==> s[i] != ';';
  }

  lemma InsertIsAccepted(s: string, tail: string, wide: char -> bool)
    requires s == "insert " + tail && IsStatement(s) && !HasWord(s, "drop", wide) && !HasWord(s, "truncate", wide)
    ensures Extract(s) == s && Validate(s, wide).Accepted?
  {
    InsertAdmitsAnything(tail, wide);
  }

  lemma QualifiedIsAccepted(wide: char -> bool)
    ensures Extract(QUALIFIED_INSERT) == QUALIFIED_INSERT && Validate(QUALIFIED_INSERT, wide).Accepted?
  {
    QualifiedIsStatement();
    QualifiedHasNoDrop(wide);
    QualifiedHasNoTruncate(wide);
    InsertIsAccepted(QUALIFIED_INSERT, QUALIFIED_INSERT[7..], wide);
  }

  // ---------------------------------------------------------------- a deletion behind `with`

  lemma PartOccurs(before: string, part: string, rest: string)
    ensures Contains(before + part + rest, part)
  {
    var s := before + part + rest;
    assert s[|before|..|before| + |part|] == part;
    assert OccursAt(s, part, |before|);
  }

  const WITH_PART := "with t as (select 1) "
  const DELETE_PART := "delete from orders where "

  /** A statement that deletes behind `with` and names tenant and shop. */
  const WITH_DELETE := WITH_PART + DELETE_PART + "tenant_id" + " = 1 and " + "shop_id" + " = 1"

  predicate IsUncut(s: string) {
    forall i :: 0 <= i < |s| ==> s[i] != ';'
  }

  lemma PartsAreUncut()
    ensures IsUncut(WITH_PART) && IsUncut(DELETE_PART) && IsUncut(" = 1 and ") && IsUncut(" = 1")
    ensures IsUncut("tenant_id") && IsUncut("shop_id")
  {}

  lemma JoinIsUncut(a: string, b: string)
    requires IsUncut(a) && IsUncut(b)
    ensures IsUncut(a + b)
  {}

  lemma JoinedIsStatement(a: string, b: string, c: string, d: string, e: string, f: string)
    requires IsUncut(a) && IsUncut(b) && IsUncut(c) && IsUncut(d) && IsUncut(e) && IsUncut(f)
    requires a != "" && !IsSpace(a[0]) && f != "" && !IsSpace(f[|f| - 1])
    ensures IsStatement(a + b + c + d + e + f)
  {
    JoinIsUncut(a, b);
    JoinIsUncut(a + b, c);
    JoinIsUncut(a + b + c, d);
    JoinIsUncut(a + b + c + d, e);
    JoinIsUncut(a + b + c + d + e, f);
  }

  lemma NamedBothIsRun(s: string, tail: string, wide: char -> bool, lower: string -> string)
    requires s == "with " + tail && IsStatement(s) && lower(s) == s
    requires Contains(s, "tenant_id") && Contains(s, "shop_id")
    ensures Extract(s) == s && ReadGate(s, true, wide, lower) == Execute(s)
  {
    ExtractOfStatement(s);
    StatementIsNormal(s);
    WithAdmitsAnything(tail, true, wide, lower);
  }

  lemma JoinedIsRun(a: string, b: string, c: string, d: string, wide: char -> bool, lower: string -> string)
    requires IsUncut(a) && IsUncut(b) && IsUncut(c) && IsUncut(d) && d != "" && !IsSpace(d[|d| - 1])
    requires |a| >= 5 && a == "with " + a[5..]
    requires var s := a + b + "tenant_id" + c + "shop_id" + d; lower(s) == s
    ensures var s := a + b + "tenant_id" + c + "shop_id" + d;
      Extract(s) == s && ReadGate(s, true, wide, lower) == Execute(s)
  {
    var s, tenant, shop := a + b + "tenant_id" + c + "shop_id" + d, "tenant_id", "shop_id";
    PartsAreUncut();
    JoinedIsStatement(a, b, tenant, c, shop, d);
    PartOccurs(a + b, tenant, c + shop + d);
    PartOccurs(a + b + tenant + c, shop, d);
    assert s == a + b + tenant + (c + shop + d);
    assert s == "with " + s[5..];
    NamedBothIsRun(s, s[5..], wide, lower);
  }

  lemma WithDeleteIsRun(wide: char -> bool, lower: string -> string)
    requires lower(WITH_DELETE) == WITH_DELETE
    ensures Extract(WITH_DELETE) == WITH_DELETE && ReadGate(WITH_DELETE, true, wide, lower) == Execute(WITH_DELETE)
  {
    PartsAreUncut();
    assert WITH_PART == "with " + WITH_PART[5..];
    JoinedIsRun(WITH_PART, DELETE_PART, " = 1 and ", " = 1", wide, lower);
  }
}
