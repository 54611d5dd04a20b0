/** What extraction and the SQL gates let through, character by character. */
module SqlMeaning {
  import opened Basics
  import opened SqlGate

  // ---------------------------------------------------------------- words

  /** The word stands in the text from the i-th character on, in any case, with no word character on
      either side. */
  predicate StandsAt(s: string, word: string, wide: char -> bool, i: nat) {
    && i + |word| <= |s| && (forall k :: 0 <= k < |word| ==> Folds(s[i + k], word[k]))
    && (i == 0 || !IsWordChar(s[i - 1], wide))
    && (i + |word| == |s| || !IsWordChar(s[i + |word|], wide))
  }

  ghost predicate Stands(s: string, word: string, wide: char -> bool) {
    exists i: nat :: StandsAt(s, word, wide, i)
  }

  lemma {:induction false} LettersExactlyWhen(s: string, word: string, i: nat)
    requires i + |word| <= |s|
    ensures LettersAt(s, word, i) <==> forall k :: 0 <= k < |word| ==> Folds(s[i + k], word[k])
    decreases |word|
  {
    if word != "" {
      LettersExactlyWhen(s, word[1..], i + 1);
      assert forall k :: 0 <= k < |word| - 1 ==> word[1..][k] == word[k + 1] && s[i + 1 + k] == s[i + (k + 1)];
      if forall k :: 0 <= k < |word| ==> Folds(s[i + k], word[k]) { assert Folds(s[i + 0], word[0]); }
    }
  }

  lemma WordExactlyWhen(s: string, word: string, wide: char -> bool, i: nat)
    requires i + |word| <= |s|
    ensures WordAt(s, word, wide, i) <==> StandsAt(s, word, wide, i)
  {
    LettersExactlyWhen(s, word, i);
  }

  lemma {:induction false} WordComes(s: string, word: string, wide: char -> bool, i: nat)
    requires WordFrom(s, word, wide, i)
    ensures Stands(s, word, wide)
    decreases |s| - i
  {
    if WordAt(s, word, wide, i) {
      WordExactlyWhen(s, word, wide, i);
    } else {
      WordComes(s, word, wide, i + 1);
    }
  }

  /** A search finds a word exactly when it stands somewhere. */
  lemma HasWordExactlyWhen(s: string, word: string, wide: char -> bool)
    ensures HasWord(s, word, wide) <==> Stands(s, word, wide)
  {
    if HasWord(s, word, wide) { WordComes(s, word, wide, 0); }
    if i: nat :| StandsAt(s, word, wide, i) {
      WordExactlyWhen(s, word, wide, i);
      WordFound(s, word, wide, 0, i);
    }
  }

  // ---------------------------------------------------------------- the first word

  /** The text's characters before the first white space are those of the word, in lower case. */
  predicate OpensWith(s: string, head: string) {
    && |head| <= |s| && (forall k :: 0 <= k < |head| ==> !IsSpace(s[k]) && LowerChar(s[k]) == head[k])
    && (|head| == |s| || IsSpace(s[|head|]))
  }

  lemma {:induction false} HeadExactlyWhen(s: string, head: string)
    ensures Lower(Token(s)) == head <==> OpensWith(s, head)
  {
    if s == "" || IsSpace(s[0]) {
      assert head != "" ==> !OpensWith(s, head);
    } else if head == "" {
      assert Lower(Token(s)) != "";
    } else {
      HeadExactlyWhen(s[1..], head[1..]);
      assert Token(s) == [s[0]] + Token(s[1..]);
      assert Lower(Token(s)) == [LowerChar(s[0])] + Lower(Token(s[1..]));
      assert head == [head[0]] + head[1..];
      OpensStepwise(s, head);
    }
  }

  lemma OpensStepwise(s: string, head: string)
    requires s != "" && head != ""
    ensures OpensWith(s, head) <==> !IsSpace(s[0]) && LowerChar(s[0]) == head[0] && OpensWith(s[1..], head[1..])
  {
    if OpensWith(s[1..], head[1..]) && !IsSpace(s[0]) && LowerChar(s[0]) == head[0] {
      forall k | 0 <= k < |head| ensures !IsSpace(s[k]) && LowerChar(s[k]) == head[k] {
        if k > 0 { assert s[k] == s[1..][k - 1] && head[k] == head[1..][k - 1]; }
      }
    }
    if OpensWith(s, head) {
      forall k | 0 <= k < |head| - 1 ensures !IsSpace(s[1..][k]) && LowerChar(s[1..][k]) == head[1..][k] {
        assert s[1..][k] == s[k + 1] && head[1..][k] == head[k + 1];
      }
    }
  }

  lemma StatementHead(sql: string, head: string)
    requires IsStatement(sql)
    ensures Normalize(sql) == sql && (HeadOf(sql) == head <==> OpensWith(sql, head))
  {
    StatementIsNormal(sql);
    HeadExactlyWhen(sql, head);
    assert StripLeft(sql) == sql;
  }

  // ---------------------------------------------------------------- the gates of writes

  predicate OpensWithOneOf(sql: string, heads: set<string>) {
    exists head :: head in heads && OpensWith(sql, head)
  }

  /** A statement that updates or deletes without saying where. */
  ghost predicate IsUnrestricted(sql: string, wide: char -> bool) {
    OpensWithOneOf(sql, {"update", "delete"}) && !Stands(sql, "where", wide)
  }

  lemma LacksWhereExactlyWhen(sql: string, wide: char -> bool)
    requires IsStatement(sql)
    ensures LacksWhere(HeadOf(sql), sql, wide) <==> IsUnrestricted(sql, wide)
  {
    StatementHead(sql, "update");
    StatementHead(sql, "delete");
    HasWordExactlyWhen(sql, "where", wide);
  }

  lemma HeadIsOneOf(sql: string, heads: set<string>)
    requires IsStatement(sql)
    ensures HeadOf(sql) in heads <==> OpensWithOneOf(sql, heads)
  {
    StatementHead(sql, HeadOf(sql));
    forall head | head in heads && OpensWith(sql, head) ensures HeadOf(sql) == head { StatementHead(sql, head); }
  }

  lemma ValidatedHead(head: string)
    ensures head in VALIDATED_HEADS <==> head in {"insert", "update", "delete", "create", "alter"}
    ensures head in EXECUTABLE_HEADS
       <==> head in {"insert", "update", "delete", "create", "alter", "drop", "truncate"}
  {
    assert VALIDATED_HEADS[0] == "insert" && VALIDATED_HEADS[1] == "update" && VALIDATED_HEADS[2] == "delete"
        && VALIDATED_HEADS[3] == "create" && VALIDATED_HEADS[4] == "alter";
    assert EXECUTABLE_HEADS[..5] == VALIDATED_HEADS && EXECUTABLE_HEADS[5] == "drop"
        && EXECUTABLE_HEADS[6] == "truncate";
  }

  lemma RefusalFor(sql: string, wide: char -> bool, reason: Reason)
    requires IsStatement(sql)
    ensures Validate(sql, wide)
      == if HeadOf(sql) == "invalid_request" then Rejected(InvalidRequest)
         else if HeadOf(sql) !in VALIDATED_HEADS then Rejected(HeadNotAllowed)
         else if LacksWhere(HeadOf(sql), sql, wide) then Rejected(MissingWhere)
         else if HasWord(sql, "drop", wide) || HasWord(sql, "truncate", wide) then Rejected(DropOrTruncate)
         else Accepted(HeadOf(sql), sql)
  {
    StatementIsNormal(sql);
  }

  /** What validation says of a statement, for all statements: the first of these faults that it
      has, or acceptance. */
  lemma ValidationIs(sql: string, wide: char -> bool)
    requires IsStatement(sql)
    ensures var v := Validate(sql, wide);
      if OpensWith(sql, "invalid_request") then v == Rejected(InvalidRequest)
      else if !OpensWithOneOf(sql, {"insert", "update", "delete", "create", "alter"}) then v == Rejected(HeadNotAllowed)
      else if IsUnrestricted(sql, wide) then v == Rejected(MissingWhere)
      else if Stands(sql, "drop", wide) || Stands(sql, "truncate", wide) then v == Rejected(DropOrTruncate)
      else v.Accepted? && v.sql == sql && OpensWith(sql, v.statement)
  {
    RefusalFor(sql, wide, InvalidRequest);
    StatementHead(sql, "invalid_request");
    StatementHead(sql, HeadOf(sql));
    ValidatedHead(HeadOf(sql));
    HeadIsOneOf(sql, {"insert", "update", "delete", "create", "alter"});
    LacksWhereExactlyWhen(sql, wide);
    HasWordExactlyWhen(sql, "drop", wide);
    HasWordExactlyWhen(sql, "truncate", wide);
  }

  /** When the write executor runs a statement: by its first word, with WHERE for updates and
      deletions, and dangerous DDL only by permission. */
  lemma ExecutedExactlyWhen(sql: string, dangerousDdl: bool, wide: char -> bool)
    requires IsStatement(sql)
    ensures var runs :=
        && OpensWithOneOf(sql, {"insert", "update", "delete", "create", "alter", "drop", "truncate"})
        && !IsUnrestricted(sql, wide)
        && (OpensWithOneOf(sql, {"drop", "truncate"}) ==> dangerousDdl);
      ExecutorGate(sql, dangerousDdl, wide) == if runs then Execute(sql) else Refused
  {
    StatementIsNormal(sql);
    ValidatedHead(HeadOf(sql));
    HeadIsOneOf(sql, {"insert", "update", "delete", "create", "alter", "drop", "truncate"});
    HeadIsOneOf(sql, {"drop", "truncate"});
    LacksWhereExactlyWhen(sql, wide);
  }

  // ---------------------------------------------------------------- the gate of reads

  predicate StartsAsRead(sql: string, wide: char -> bool) {
    exists word :: word in {"select", "with", "show", "describe", "desc"} && StandsAt(sql, word, wide, 0)
  }

  lemma StartsExactlyWhen(sql: string, word: string, wide: char -> bool)
    ensures StartsWithWord(sql, word, wide) <==> StandsAt(sql, word, wide, 0)
  {
    if |word| <= |sql| { WordExactlyWhen(sql, word, wide, 0); }
  }

  lemma ReadHead(word: string)
    ensures word in READ_HEADS <==> word in {"select", "with", "show", "describe", "desc"}
  {
    assert READ_HEADS[0] == "select" && READ_HEADS[1] == "with" && READ_HEADS[2] == "show"
        && READ_HEADS[3] == "describe" && READ_HEADS[4] == "desc";
  }

  lemma StartsAsReadExactlyWhen(sql: string, wide: char -> bool)
    ensures StartsWithReadWord(sql, wide) <==> StartsAsRead(sql, wide)
  {
    forall word ensures word in READ_HEADS <==> word in {"select", "with", "show", "describe", "desc"} {
      ReadHead(word);
    }
    forall word ensures StartsWithWord(sql, word, wide) <==> StandsAt(sql, word, wide, 0) {
      StartsExactlyWhen(sql, word, wide);
    }
  }

  /** The name occurs in the text with no word character on either side. */
  ghost predicate Names(lowered: string, name: string, wide: char -> bool) {
    exists i: nat :: i + |name| <= |lowered| && OccursAt(lowered, name, i)
      && (i == 0 || !IsWordChar(lowered[i - 1], wide))
      && (i + |name| == |lowered| || !IsWordChar(lowered[i + |name|], wide))
  }

  predicate IsLowerName(name: string) {
    forall k :: 0 <= k < |name| ==> 'a' <= name[k] <= 'z' || name[k] == '_'
  }

  lemma MentionsExactlyWhen(lowered: string, name: string, wide: char -> bool)
    requires IsLowerName(name)
    ensures MentionsWord(lowered, name, wide) <==> Names(lowered, name, wide)
  {
    forall i: nat | OccursAt(lowered, name, i) ensures LettersAt(lowered, name, i) {
      var part := lowered[i..i + |name|];
      assert forall k :: 0 <= k < |name| ==> part[k] == lowered[i + k];
      LettersExactlyWhen(lowered, name, i);
    }
  }

  /** The tables of the shops' business data. */
  const SCOPED: set<string> := {
    "customers", "sellers", "products", "orders", "order_items", "payments", "reviews", "inventory",
    "traffic_stats", "campaigns", "campaign_product_stats", "refunds", "customer_service_tickets"}

  lemma IsScoped(table: string)
    ensures table in TENANT_SCOPED_TABLES <==> table in SCOPED
    ensures table in SCOPED ==> IsLowerName(table)
  {
    var tables := TENANT_SCOPED_TABLES;
    assert tables[0] == "customers" && tables[1] == "sellers" && tables[2] == "products" && tables[3] == "orders"
        && tables[4] == "order_items" && tables[5] == "payments" && tables[6] == "reviews" && tables[7] == "inventory"
        && tables[8] == "traffic_stats" && tables[9] == "campaigns" && tables[10] == "campaign_product_stats"
        && tables[11] == "refunds" && tables[12] == "customer_service_tickets";
  }

  /** A text that names a scoped table has to be asked for by a known tenant and shop and to contain
      both column names. */
  lemma IsolatedExactlyWhen(lowered: string, scoped: bool, wide: char -> bool)
    ensures Isolated(lowered, scoped, wide) <==>
      ((exists table :: table in SCOPED && Names(lowered, table, wide)) ==>
         && scoped && (exists i: nat :: OccursAt(lowered, "tenant_id", i))
         && (exists i: nat :: OccursAt(lowered, "shop_id", i)))
  {
    forall table ensures table in TENANT_SCOPED_TABLES <==> table in SCOPED { IsScoped(table); }
    forall table | table in SCOPED ensures MentionsWord(lowered, table, wide) <==> Names(lowered, table, wide) {
      IsScoped(table);
      MentionsExactlyWhen(lowered, table, wide);
    }
    ContainsExactlyWhen(lowered, "tenant_id");
    ContainsExactlyWhen(lowered, "shop_id");
  }

  lemma ContainsExactlyWhen(s: string, part: string)
    ensures Contains(s, part) <==> exists i: nat :: OccursAt(s, part, i)
  {}

  /** A SELECT without a limit gets one; any other statement stays as it is. */
  ghost predicate IsLimited(sql: string, wide: char -> bool, text: string) {
    if StandsAt(sql, "select", wide, 0) && !Stands(sql, "limit", wide) then text == sql + " LIMIT 100" else text == sql
  }

  /** When the read executor runs a statement, and which text it runs then. */
  lemma ReadExactlyWhen(sql: string, scoped: bool, wide: char -> bool, lower: string -> string) returns (text: string)
    requires IsStatement(sql)
    ensures IsLimited(sql, wide, text)
    ensures ReadGate(sql, scoped, wide, lower)
         == if StartsAsRead(sql, wide) && Isolated(lower(text), scoped, wide) then Execute(text) else Refused
  {
    StatementIsNormal(sql);
    StartsAsReadExactlyWhen(sql, wide);
    StartsExactlyWhen(sql, "select", wide);
    HasWordExactlyWhen(sql, "limit", wide);
    text := WithLimit(sql, wide);
  }

  // ---------------------------------------------------------------- extraction

  predicate AllSpaces(s: string) {
    forall i :: 0 <= i < |s| ==> IsSpace(s[i])
  }

  /** Stripping takes white space off both ends and nothing else. */
  lemma StripIs(s: string) returns (before: string, after: string)
    ensures s == before + Strip(s) + after && AllSpaces(before) && AllSpaces(after)
  {
    before := LeftIs(s);
    after := RightIs(StripLeft(s));
    assert s == before + (Strip(s) + after);
  }

  lemma {:induction false} LeftIs(s: string) returns (before: string)
    ensures s == before + StripLeft(s) && AllSpaces(before)
  {
    before := "";
    if s != "" && IsSpace(s[0]) {
      var rest := LeftIs(s[1..]);
      before := [s[0]] + rest;
      assert s == [s[0]] + s[1..];
    }
  }

  lemma {:induction false} RightIs(s: string) returns (after: string)
    ensures s == StripRight(s) + after && AllSpaces(after)
  {
    after := "";
    if s != "" && IsSpace(s[|s| - 1]) {
      var n := |s| - 1;
      var rest := RightIs(s[..n]);
      after := rest + [s[n]];
      assert s == s[..n] + [s[n]];
      assert s == StripRight(s) + (rest + [s[n]]);
    }
  }

  lemma {:induction false} SemicolonsAre(s: string) returns (semicolons: string)
    ensures s == DropSemicolons(s) + semicolons && forall i :: 0 <= i < |semicolons| ==> semicolons[i] == ';'
    ensures DropSemicolons(s) != "" ==> DropSemicolons(s)[|DropSemicolons(s)| - 1] != ';'
  {
    semicolons := "";
    if s != "" && s[|s| - 1] == ';' {
      var n := |s| - 1;
      var rest := SemicolonsAre(s[..n]);
      semicolons := rest + [';'];
      assert s == s[..n] + [';'];
      assert s == DropSemicolons(s) + (rest + [';']);
    }
  }

  lemma Regroup(a: string, b: string, c: string, d: string)
    ensures a + (b + c) + d == a + b + c + d
  {}

  /** Normalising takes off the white space at both ends and then the semicolons at the end, and
      nothing else: white space before the semicolons stays. */
  lemma NormalizeIs(s: string) returns (before: string, semicolons: string, after: string)
    ensures s == before + Normalize(s) + semicolons + after && AllSpaces(before) && AllSpaces(after)
    ensures forall i :: 0 <= i < |semicolons| ==> semicolons[i] == ';'
    ensures Normalize(s) != "" ==> Normalize(s)[|Normalize(s)| - 1] != ';'
    ensures Normalize(s) + semicolons != "" ==> !IsSpace((Normalize(s) + semicolons)[0])
    ensures var kept := Normalize(s) + semicolons; kept != "" ==> !IsSpace(kept[|kept| - 1])
  {
    before, after := StripIs(s);
    StripShape(s);
    semicolons := SemicolonsAre(Strip(s));
    Regroup(before, Normalize(s), semicolons, after);
  }

  /** Without a semicolon the text is one part; else the first semicolon ends the first part. */
  lemma {:induction false} SplitAt(part: string, rest: string)
    requires ';' !in part
    ensures Split(part + ";" + rest) == [part] + Split(rest)
  {
    var s := part + ";" + rest;
    if part == "" {
      assert s == ";" + rest && s[1..] == rest;
    } else {
      SplitAt(part[1..], rest);
      assert s[1..] == part[1..] + ";" + rest;
      assert part == [part[0]] + part[1..];
    }
  }

  /** Nothing but semicolons and white space. */
  predicate IsFiller(s: string) {
    forall i :: 0 <= i < |s| ==> s[i] == ';' || IsSpace(s[i])
  }

  /** The text is filler, the statement, white space, and then the end or a semicolon. */
  predicate IsFirstStatement(body: string, before: string, sql: string, after: string, rest: string) {
    && body == before + sql + after + rest && IsFiller(before) && IsStatement(sql)
    && AllSpaces(after) && (rest == "" || rest[0] == ';')
  }

  lemma {:induction false} FirstSemicolon(body: string) returns (n: nat)
    requires ';' in body
    ensures n < |body| && body[n] == ';' && ';' !in body[..n]
  {
    if body[0] == ';' {
      n := 0;
    } else {
      assert body == [body[0]] + body[1..];
      var m := FirstSemicolon(body[1..]);
      n := m + 1;
      assert body[..n] == [body[0]] + body[1..][..m];
    }
  }

  lemma PartIsFirst(part: string, rest: string) returns (before: string, after: string)
    requires ';' !in part && !Blank(part) && (rest == "" || rest[0] == ';')
    ensures IsFirstStatement(part + rest, before, Strip(part), after, rest)
  {
    before, after := StripIs(part);
    StripIsStatement(part);
  }

  lemma FillerGrows(part: string, before: string, sql: string, after: string, rest: string)
    requires AllSpaces(part) && IsFirstStatement(before + sql + after + rest, before, sql, after, rest)
    ensures IsFirstStatement(part + ";" + (before + sql + after + rest), part + ";" + before, sql, after, rest)
  {
    var filler := part + ";" + before;
    forall i | 0 <= i < |filler| ensures filler[i] == ';' || IsSpace(filler[i]) {
      if i > |part| { assert filler[i] == before[i - |part| - 1]; }
    }
    assert part + ";" + (before + sql + after + rest) == filler + sql + after + rest;
  }

  /** Extraction gives the first statement of the text, or a text that is filler as it is. */
  lemma {:induction false} ExtractIsFirst(body: string) returns (before: string, after: string, rest: string)
    ensures IsFiller(body) ==> Extract(body) == body
    ensures !IsFiller(body) ==> IsFirstStatement(body, before, Extract(body), after, rest)
    ensures Statements(Split(body)) == [] <==> IsFiller(body)
  {
    before, after, rest := "", "", "";
    if ';' !in body {
      SplitOfOne(body);
      assert Split(body)[1..] == [];
      if Blank(body) {
        BlankIsSpaces(body);
        assert Statements([body]) == Statements([]);
      } else {
        before, after := PartIsFirst(body, "");
        assert body + "" == body;
        NotFiller(body, before, Strip(body), after, "");
      }
    } else {
      var n := FirstSemicolon(body);
      var part, tail := body[..n], body[n + 1..];
      assert body == part + ";" + tail;
      SplitAt(part, tail);
      assert Split(body)[1..] == Split(tail);
      if Blank(part) {
        BlankIsSpaces(part);
        before, after, rest := ExtractIsFirst(tail);
        FillerBehind(part, tail);
        assert Statements(Split(body)) == Statements(Split(tail));
        if !IsFiller(tail) {
          FillerGrows(part, before, Extract(tail), after, rest);
          before := part + ";" + before;
        }
      } else {
        rest := ";" + tail;
        before, after := PartIsFirst(part, rest);
        assert part + rest == body;
        NotFiller(body, before, Strip(part), after, rest);
      }
    }
  }

  lemma FillerBehind(part: string, tail: string)
    requires AllSpaces(part)
    ensures IsFiller(part + ";" + tail) <==> IsFiller(tail)
  {
    var s := part + ";" + tail;
    if IsFiller(s) {
      forall i | 0 <= i < |tail| ensures tail[i] == ';' || IsSpace(tail[i]) { assert s[|part| + 1 + i] == tail[i]; }
    }
    if IsFiller(tail) {
      forall i | 0 <= i < |s| ensures s[i] == ';' || IsSpace(s[i]) {
        if i > |part| { assert s[i] == tail[i - |part| - 1]; }
      }
    }
  }

  lemma NotFiller(body: string, before: string, sql: string, after: string, rest: string)
    requires IsFirstStatement(body, before, sql, after, rest)
    ensures !IsFiller(body)
  {
    assert body[|before|] == sql[0] && sql[0] in sql;
  }
}
