/** The text checks around generated SQL: _extract_sql and _validate_write_sql of
    agent/tools/database_workflow_tool.py, and the executors' own gates in agent/platform/db.py.
    Whether a character outside ASCII is a word character is left to the parameter `wide`. */
module SqlGate {
  import opened Basics

  /** str.isspace */
  predicate IsSpace(c: char) {
    var n := c as int;
    9 <= n <= 13 || 28 <= n <= 32 || n == 0x85 || n == 0xA0 || n == 0x1680 || 0x2000 <= n <= 0x200A
    || n == 0x2028 || n == 0x2029 || n == 0x202F || n == 0x205F || n == 0x3000
  }

  predicate IsWordChar(c: char, wide: char -> bool) {
    'a' <= c <= 'z' || 'A' <= c <= 'Z' || '0' <= c <= '9' || c == '_' || (c as int >= 128 && wide(c))
  }

  /** The Kelvin sign is the one character outside ASCII whose lower case is a letter inside. */
  function LowerChar(c: char): char {
    if 'A' <= c <= 'Z' then (c as int + 32) as char else if c == '\U{212A}' then 'k' else c
  }

  /** Whether `re.IGNORECASE` matches the character with the ASCII letter: the dotted capital
      and the dotless small i match i, the long s matches s. */
  predicate Folds(c: char, letter: char) {
    || LowerChar(c) == letter
    || (letter == 'i' && (c == '\U{0130}' || c == '\U{0131}'))
    || (letter == 's' && c == '\U{017F}')
  }

  function Lower(s: string): string {
    if s == "" then "" else [LowerChar(s[0])] + Lower(s[1..])
  }

  function StripLeft(s: string): string {
    if s != "" && IsSpace(s[0]) then StripLeft(s[1..]) else s
  }

  function StripRight(s: string): string {
    if s != "" && IsSpace(s[|s| - 1]) then StripRight(s[..|s| - 1]) else s
  }

  function Strip(s: string): string {
    StripRight(StripLeft(s))
  }

  /** `rstrip(";")` */
  function DropSemicolons(s: string): string {
    if s != "" && s[|s| - 1] == ';' then DropSemicolons(s[..|s| - 1]) else s
  }

  lemma {:induction false} StripLeftShape(s: string)
    ensures var r := StripLeft(s); |r| <= |s| && r == s[|s| - |r|..] && (r == "" || !IsSpace(r[0]))
  {
    if s != "" && IsSpace(s[0]) { StripLeftShape(s[1..]); }
  }

  lemma {:induction false} StripRightShape(s: string)
    ensures var r := StripRight(s); |r| <= |s| && r == s[..|r|] && (r == "" || !IsSpace(r[|r| - 1]))
  {
    if s != "" && IsSpace(s[|s| - 1]) { StripRightShape(s[..|s| - 1]); }
  }

  lemma {:induction false} DropSemicolonsShape(s: string)
    ensures var r := DropSemicolons(s); |r| <= |s| && r == s[..|r|]
  {
    if s != "" && s[|s| - 1] == ';' { DropSemicolonsShape(s[..|s| - 1]); }
  }

  lemma StripShape(s: string)
    ensures forall c :: c in Strip(s) ==> c in s
    ensures Strip(s) == "" || (!IsSpace(Strip(s)[0]) && !IsSpace(Strip(s)[|Strip(s)| - 1]))
  {
    StripLeftShape(s);
    StripRightShape(StripLeft(s));
    assert Strip(s) != "" ==> Strip(s)[0] == StripLeft(s)[0];
  }

  function Normalize(sql: string): string {
    DropSemicolons(Strip(sql))
  }

  function Token(s: string): (r: string)
    ensures r <= s && (forall c :: c in r ==> !IsSpace(c))
    ensures s != "" && !IsSpace(s[0]) ==> r != ""
  {
    if s == "" || IsSpace(s[0]) then "" else [s[0]] + Token(s[1..])
  }

  /** `s.split(None, 1)[0].lower()`, or nothing for an empty text. */
  function Head(s: string): string {
    Lower(Token(StripLeft(s)))
  }

  predicate LettersAt(s: string, word: string, i: nat)
    decreases |word|
  {
    word == "" || (i < |s| && Folds(s[i], word[0]) && LettersAt(s, word[1..], i + 1))
  }

  predicate WordAt(s: string, word: string, wide: char -> bool, i: nat)
    requires i + |word| <= |s|
  {
    && LettersAt(s, word, i)
    && (i == 0 || !IsWordChar(s[i - 1], wide))
    && (i + |word| == |s| || !IsWordChar(s[i + |word|], wide))
  }

  predicate WordFrom(s: string, word: string, wide: char -> bool, i: nat)
    decreases |s| - i
  {
    i + |word| <= |s| && (WordAt(s, word, wide, i) || (i < |s| && WordFrom(s, word, wide, i + 1)))
  }

  /** `re.search(r"\bword\b", s, re.IGNORECASE)` for a word of ASCII letters. */
  predicate HasWord(s: string, word: string, wide: char -> bool) {
    WordFrom(s, word, wide, 0)
  }

  datatype Reason = InvalidRequest | HeadNotAllowed | MissingWhere | DropOrTruncate | SeveralStatements
  datatype Validation = Rejected(reason: Reason) | Accepted(statement: string, sql: string)

  const VALIDATED_HEADS := ["insert", "update", "delete", "create", "alter"]
  const EXECUTABLE_HEADS := ["insert", "update", "delete", "create", "alter", "drop", "truncate"]

  predicate LacksWhere(head: string, text: string, wide: char -> bool) {
    (head == "update" || head == "delete") && !HasWord(text, "where", wide)
  }

  /** The head of a normalised text. */
  function HeadOf(normalized: string): string {
    if normalized != "" then Head(normalized) else ""
  }

  /** _validate_write_sql */
  function Validate(sql: string, wide: char -> bool): Validation {
    var normalized := Normalize(sql);
    var head := HeadOf(normalized);
    if head == "invalid_request" then Rejected(InvalidRequest)
    else if head !in VALIDATED_HEADS then Rejected(HeadNotAllowed)
    else if LacksWhere(head, normalized, wide) then Rejected(MissingWhere)
    else if HasWord(normalized, "drop", wide) || HasWord(normalized, "truncate", wide) then Rejected(DropOrTruncate)
    else if ';' in normalized then Rejected(SeveralStatements)
    else Accepted(head, normalized)
  }

  datatype Gate = Refused | Execute(text: string)

  /** The checks of execute_write_sql_raw and the text that it then executes. */
  function ExecutorGate(query: string, allowDangerousDdl: bool, wide: char -> bool): Gate {
    var stripped := Normalize(query);
    var head := HeadOf(stripped);
    if head !in EXECUTABLE_HEADS then Refused
    else if LacksWhere(head, stripped, wide) then Refused
    else if (head == "drop" || head == "truncate") && !allowDangerousDdl then Refused
    else Execute(stripped)
  }

  // ---------------------------------------------------------------- the read executor

  const READ_HEADS := ["select", "with", "show", "describe", "desc"]

  const TENANT_SCOPED_TABLES := [
    "customers", "sellers", "products", "orders", "order_items", "payments", "reviews", "inventory",
    "traffic_stats", "campaigns", "campaign_product_stats", "refunds", "customer_service_tickets"]

  /** `re.match(r"^word\b", s, re.IGNORECASE)` */
  predicate StartsWithWord(s: string, word: string, wide: char -> bool) {
    |word| <= |s| && WordAt(s, word, wide, 0)
  }

  predicate StartsWithReadWord(s: string, wide: char -> bool) {
    exists word :: word in READ_HEADS && StartsWithWord(s, word, wide)
  }

  predicate OccursAt(s: string, part: string, i: nat) {
    i + |part| <= |s| && s[i..i + |part|] == part
  }

  /** `part in s` */
  predicate Contains(s: string, part: string) {
    exists i: nat :: i <= |s| && OccursAt(s, part, i)
  }

  /** `re.search(r"\bword\b", s)` */
  predicate MentionsWord(s: string, word: string, wide: char -> bool) {
    exists i: nat :: i <= |s| && OccursAt(s, word, i) && WordAt(s, word, wide, i)
  }

  /** validate_tenant_scoped_read_sql on the lowered text; `scoped` is whether there is a
      trusted tenant and shop. */
  predicate Isolated(lowered: string, scoped: bool, wide: char -> bool) {
    (exists table :: table in TENANT_SCOPED_TABLES && MentionsWord(lowered, table, wide)) ==>
      scoped && Contains(lowered, "tenant_id") && Contains(lowered, "shop_id")
  }

  function WithLimit(stripped: string, wide: char -> bool): string {
    if StartsWithWord(stripped, "select", wide) && !HasWord(stripped, "limit", wide) then stripped + " LIMIT 100"
    else stripped
  }

  /** The checks of execute_read_sql_raw and the text that it then executes; `lower` is
      str.lower. */
  function ReadGate(query: string, scoped: bool, wide: char -> bool, lower: string -> string): Gate {
    var stripped := Normalize(query);
    var text := WithLimit(stripped, wide);
    if StartsWithReadWord(stripped, wide) && Isolated(lower(text), scoped, wide) then Execute(text) else Refused
  }

  // ---------------------------------------------------------------- extraction

  function Split(s: string): (r: seq<string>)
    ensures r != [] && forall i :: 0 <= i < |r| ==> ';' !in r[i]
  {
    if s == "" then [""]
    else
      var rest := Split(s[1..]);
      if s[0] == ';' then [""] + rest else [[s[0]] + rest[0]] + rest[1..]
  }

  /** What stripping leaves of a part that is not blank. */
  predicate IsStatement(s: string) {
    s != "" && ';' !in s && !IsSpace(s[0]) && !IsSpace(s[|s| - 1])
  }

  lemma StripIsStatement(part: string)
    requires ';' !in part
    ensures Blank(part) || IsStatement(Strip(part))
  {
    StripShape(part);
  }

  predicate Blank(part: string) {
    Strip(part) == ""
  }

  /** The stripped parts that are not blank. */
  function Statements(parts: seq<string>): seq<string> {
    if parts == [] then []
    else if Blank(parts[0]) then Statements(parts[1..])
    else [Strip(parts[0])] + Statements(parts[1..])
  }

  lemma {:induction false} AllBlank(parts: seq<string>, i: nat)
    requires Statements(parts) == [] && i < |parts|
    ensures Blank(parts[i])
  {
    if i > 0 {
      AllBlank(parts[1..], i - 1);
    }
  }

  lemma {:induction false} FirstIsStatement(parts: seq<string>)
    requires forall i :: 0 <= i < |parts| ==> ';' !in parts[i]
    ensures var r := Statements(parts); r != [] ==> IsStatement(r[0])
  {
    if parts != [] {
      StripIsStatement(parts[0]);
      FirstIsStatement(parts[1..]);
    }
  }

  /** _extract_sql on the model's text, once a code fence, if any, has been taken off. */
  function Extract(body: string): string {
    var statements := Statements(Split(body));
    if statements != [] then statements[0] else body
  }

  lemma {:induction false} StatementIsNormal(s: string)
    requires IsStatement(s)
    ensures Normalize(s) == s
  {
    assert StripRight(s) == s;
    assert s[|s| - 1] in s;
    assert DropSemicolons(s) == s;
  }

  lemma {:induction false} StripLeftBlank(s: string, i: nat)
    requires i < |s| && !IsSpace(s[i])
    ensures StripLeft(s) != "" && exists j :: 0 <= j < |StripLeft(s)| && StripLeft(s)[j] == s[i]
  {
    if IsSpace(s[0]) {
      StripLeftBlank(s[1..], i - 1);
    }
  }

  lemma {:induction false} StripRightBlank(s: string, i: nat)
    requires i < |s| && !IsSpace(s[i])
    ensures StripRight(s) != ""
  {
    if IsSpace(s[|s| - 1]) {
      StripRightBlank(s[..|s| - 1], i);
    }
  }

  lemma BlankIsSpaces(s: string)
    requires Blank(s)
    ensures forall i :: 0 <= i < |s| ==> IsSpace(s[i])
  {
    forall i | 0 <= i < |s| ensures IsSpace(s[i]) {
      if !IsSpace(s[i]) {
        StripLeftBlank(s, i);
        var l := StripLeft(s);
        var j :| 0 <= j < |l| && l[j] == s[i];
        StripRightBlank(l, j);
      }
    }
  }

  lemma {:induction false} SplitCovers(s: string, i: nat)
    requires i < |s| && s[i] != ';'
    ensures exists k :: 0 <= k < |Split(s)| && s[i] in Split(s)[k]
  {
    var rest := Split(s[1..]);
    if i == 0 {
      assert Split(s)[0][0] == s[0];
    } else {
      SplitCovers(s[1..], i - 1);
      var k :| 0 <= k < |rest| && s[i] in rest[k];
      if s[0] == ';' {
        assert Split(s)[k + 1] == rest[k];
      } else if k == 0 {
        assert Split(s)[0] == [s[0]] + rest[0];
      } else {
        assert Split(s)[k] == rest[k];
      }
    }
  }

  /** Without a statement the text is made of semicolons and white space. */
  lemma NoStatementText(body: string)
    requires Statements(Split(body)) == []
    ensures forall c :: c in body ==> c == ';' || IsSpace(c)
  {
    forall c | c in body ensures c == ';' || IsSpace(c) {
      var i :| 0 <= i < |body| && body[i] == c;
      if c != ';' {
        SplitCovers(body, i);
        var k :| 0 <= k < |Split(body)| && c in Split(body)[k];
        AllBlank(Split(body), k);
        BlankIsSpaces(Split(body)[k]);
      }
    }
  }

  lemma HeadOfSemicolons(s: string)
    requires forall c :: c in s ==> c == ';' || IsSpace(c)
    ensures Head(s) == "" || Head(s)[0] == ';'
  {
    var t := Token(StripLeft(s));
    StripLeftShape(s);
    if t != "" {
      assert t[0] in t && t[0] in StripLeft(s) && t[0] in s;
      assert Head(s)[0] == ';';
    }
  }

  /** Extraction yields a statement that is its own normal form, or a text that no head
      test lets through. */
  lemma ExtractedIsNormal(body: string, wide: char -> bool)
    ensures var sql := Extract(body);
      (IsStatement(sql) && Normalize(sql) == sql) || Validate(sql, wide) == Rejected(HeadNotAllowed)
  {
    var sql := Extract(body);
    if Statements(Split(body)) != [] {
      FirstIsStatement(Split(body));
      StatementIsNormal(sql);
    } else {
      NoStatementText(body);
      var n := Normalize(body);
      StripShape(body);
      DropSemicolonsShape(Strip(body));
      HeadOfSemicolons(n);
      NotAllowed(HeadOf(n));
    }
  }

  lemma NotAllowed(head: string)
    requires head == "" || head[0] == ';'
    ensures head !in VALIDATED_HEADS && head != "invalid_request"
  {}

  lemma HeadsIncluded(head: string)
    requires head in VALIDATED_HEADS
    ensures head in EXECUTABLE_HEADS && head != "drop" && head != "truncate"
  {}

  /** For every text that validation accepts, whatever it is, the executor's gate lets the
      validated form through, with or without permission for dangerous DDL. */
  lemma AcceptedPassesGate(sql: string, allowDangerousDdl: bool, wide: char -> bool)
    requires Validate(sql, wide).Accepted?
    ensures ExecutorGate(sql, allowDangerousDdl, wide) == Execute(Validate(sql, wide).sql)
  {
    var head := HeadOf(Normalize(sql));
    assert head in VALIDATED_HEADS && !LacksWhere(head, Normalize(sql), wide);
    HeadsIncluded(head);
  }

  /** After extraction the executed text is the candidate itself, character for character. */
  lemma AcceptedIsExecutedVerbatim(body: string, allowDangerousDdl: bool, wide: char -> bool)
    requires Validate(Extract(body), wide).Accepted?
    ensures var sql := Extract(body);
      IsStatement(sql) && ExecutorGate(sql, allowDangerousDdl, wide) == Execute(sql)
  {
    ExtractedIsNormal(body, wide);
    AcceptedPassesGate(Extract(body), allowDangerousDdl, wide);
  }

  /** Behind extraction the several-statements check never fires: extraction has already
      cut the text to its first statement. */
  lemma SeveralStatementsNeverReported(body: string, wide: char -> bool)
    ensures Validate(Extract(body), wide) != Rejected(SeveralStatements)
  {
    ExtractedIsNormal(body, wide);
    if ';' !in Normalize(Extract(body)) {
      OneStatementNotSeveral(Extract(body), wide);
    }
  }

  lemma OneStatementNotSeveral(sql: string, wide: char -> bool)
    requires ';' !in Normalize(sql)
    ensures Validate(sql, wide) != Rejected(SeveralStatements)
  {}

  // ---------------------------------------------------------------- what validation lets through

  lemma {:induction false} SplitOfOne(s: string)
    requires ';' !in s
    ensures Split(s) == [s]
  {
    if s != "" {
      SplitOfOne(s[1..]);
      assert s == [s[0]] + s[1..];
    }
  }

  lemma ExtractOfStatement(s: string)
    requires IsStatement(s)
    ensures Extract(s) == s
  {
    SplitOfOne(s);
    var parts := Split(s);
    assert Strip(s) == s && parts[1..] == [];
    assert Statements(parts) == [s];
  }

  lemma {:induction false} TokenOfWord(word: string, rest: string)
    requires forall i :: 0 <= i < |word| ==> 'a' <= word[i] <= 'z'
    requires rest != "" && IsSpace(rest[0])
    ensures Lower(Token(word + rest)) == word
  {
    if word == "" {
      assert word + rest == rest;
    } else {
      TokenOfWord(word[1..], rest);
      assert (word + rest)[1..] == word[1..] + rest;
    }
  }

  lemma HeadIsInsert(tail: string)
    ensures HeadOf("insert " + tail) == "insert"
  {
    var s := "insert " + tail;
    TokenOfWord("insert", " " + tail);
    assert s == "insert" + (" " + tail) && !IsSpace(s[0]);
  }

  /** The head word and two forbidden words are all that validation looks at: behind `insert` any
      statement passes, whatever database it names. */
  lemma InsertAdmitsAnything(tail: string, wide: char -> bool)
    requires IsStatement("insert " + tail)
    ensures var s := "insert " + tail;
      Extract(s) == s
      && (Validate(s, wide).Accepted? <==> !HasWord(s, "drop", wide) && !HasWord(s, "truncate", wide))
  {
    HeadIsInsert(tail);
    StatementIsNormal("insert " + tail);
    ExtractOfStatement("insert " + tail);
  }

  // ---------------------------------------------------------------- what the read executor runs

  lemma {:induction false} WordFound(s: string, word: string, wide: char -> bool, from: nat, i: nat)
    requires from <= i && i + |word| <= |s| && WordAt(s, word, wide, i)
    ensures WordFrom(s, word, wide, from)
    decreases i - from
  {
    if from < i && |word| > 0 {
      WordFound(s, word, wide, from + 1, i);
    } else if from < i {
      assert i <= |s|;
      WordFound(s, word, wide, from + 1, i);
    }
  }

  lemma LimitAt(s: string, i: nat)
    requires i + 5 <= |s| && s[i] == 'L' && s[i + 1] == 'I' && s[i + 2] == 'M' && s[i + 3] == 'I' && s[i + 4] == 'T'
    ensures LettersAt(s, "limit", i)
  {
    assert LettersAt(s, "", i + 5);
    assert LettersAt(s, "t", i + 4);
    assert LettersAt(s, "it", i + 3);
    assert LettersAt(s, "mit", i + 2);
    assert LettersAt(s, "imit", i + 1);
  }

  lemma LimitIsAdded(stripped: string, wide: char -> bool)
    requires StartsWithWord(stripped, "select", wide)
    ensures HasWord(WithLimit(stripped, wide), "limit", wide)
  {
    if !HasWord(stripped, "limit", wide) {
      var text := stripped + " LIMIT 100";
      var i := |stripped| + 1;
      assert text[i - 1] == ' ' && text[i + 5] == ' ';
      LimitAt(text, i);
      WordFound(text, "limit", wide, 0, i);
    }
  }

  lemma {:induction false} LettersStay(s: string, t: string, word: string, i: nat)
    requires i + |word| <= |s| && LettersAt(s, word, i)
    ensures LettersAt(s + t, word, i)
    decreases |word|
  {
    if word != "" {
      assert (s + t)[i] == s[i];
      LettersStay(s, t, word[1..], i + 1);
    }
  }

  lemma StartStays(stripped: string, word: string, wide: char -> bool)
    requires StartsWithWord(stripped, word, wide)
    ensures StartsWithWord(stripped + " LIMIT 100", word, wide)
  {
    var text := stripped + " LIMIT 100";
    LettersStay(stripped, " LIMIT 100", word, 0);
    if |word| == |stripped| {
      assert text[|word|] == ' ';
    } else {
      assert text[|word|] == stripped[|word|];
    }
  }

  /** What the read executor runs starts with a read word, has a limit when it is a SELECT, and
      names tenant and shop when it mentions a scoped table. */
  lemma ReadTextsAreReads(query: string, scoped: bool, wide: char -> bool, lower: string -> string)
    requires ReadGate(query, scoped, wide, lower).Execute?
    ensures var text := ReadGate(query, scoped, wide, lower).text;
      && StartsWithReadWord(text, wide) && Isolated(lower(text), scoped, wide)
      && (StartsWithWord(Normalize(query), "select", wide) ==> HasWord(text, "limit", wide))
  {
    var stripped := Normalize(query);
    var word :| word in READ_HEADS && StartsWithWord(stripped, word, wide);
    StartStays(stripped, word, wide);
    if StartsWithWord(stripped, "select", wide) { LimitIsAdded(stripped, wide); }
  }

  lemma {:induction false} TokenCovers(s: string, k: nat)
    requires k < |s| && forall i :: 0 <= i <= k ==> !IsSpace(s[i])
    ensures k < |Token(s)| && k < |Lower(Token(s))| && Lower(Token(s))[k] == LowerChar(s[k])
  {
    if k > 0 { TokenCovers(s[1..], k - 1); }
  }

  lemma LettersFold(s: string, word: string, i: nat)
    requires |word| >= 3 && LettersAt(s, word, i)
    ensures i + 3 <= |s| && Folds(s[i], word[0]) && Folds(s[i + 1], word[1]) && Folds(s[i + 2], word[2])
  {
    assert LettersAt(s, word[1..], i + 1) && word[1..][0] == word[1];
    assert LettersAt(s, word[1..][1..], i + 2) && word[1..][1..][0] == word[2];
  }

  lemma FoldedIsSolid(c: char, letter: char)
    requires Folds(c, letter) && 'a' <= letter <= 'z'
    ensures !IsSpace(c)
  {}

  /** The first three letters tell every read word from every head of the write executor. */
  lemma ReadWordIsNoWriteHead(s: string, word: string, wide: char -> bool)
    requires word in READ_HEADS && StartsWithWord(s, word, wide)
    ensures HeadOf(s) !in EXECUTABLE_HEADS
  {
    LettersFold(s, word, 0);
    FoldedIsSolid(s[0], word[0]);
    FoldedIsSolid(s[1], word[1]);
    FoldedIsSolid(s[2], word[2]);
    TokenCovers(s, 0);
    TokenCovers(s, 1);
    TokenCovers(s, 2);
    var head := HeadOf(s);
    assert StripLeft(s) == s;
    HeadLetters(head, word[0], word[1], word[2], s[0], s[1], s[2]);
  }

  lemma HeadLetters(head: string, a: char, b: char, c: char, x: char, y: char, z: char)
    requires |head| >= 3 && head[0] == LowerChar(x) && head[1] == LowerChar(y) && head[2] == LowerChar(z)
    requires Folds(x, a) && Folds(y, b) && Folds(z, c)
    requires (a == 's') || (a == 'w') || (a == 'd' && b == 'e' && c == 's')
    ensures head !in EXECUTABLE_HEADS
  {
    assert forall h :: h in EXECUTABLE_HEADS ==> h[0] in {'i', 'u', 'd', 'c', 'a', 't'};
    assert forall h :: h in EXECUTABLE_HEADS && h[0] == 'd' ==> h[1] == 'r' || h[2] == 'l';
  }

  /** No text passes both executors: what the read executor runs never has a write head. */
  lemma ReadTextsAreNotWrites(query: string, scoped: bool, wide: char -> bool, lower: string -> string,
      dangerousDdl: bool)
    requires ReadGate(query, scoped, wide, lower).Execute?
    ensures ExecutorGate(query, dangerousDdl, wide) == Refused
  {
    var stripped := Normalize(query);
    var word :| word in READ_HEADS && StartsWithWord(stripped, word, wide);
    ReadWordIsNoWriteHead(stripped, word, wide);
  }

  lemma WithStarts(tail: string, wide: char -> bool)
    ensures StartsWithReadWord("with " + tail, wide)
  {
    var s := "with " + tail;
    assert s[0] == 'w' && s[1] == 'i' && s[2] == 't' && s[3] == 'h' && s[4] == ' ';
    assert LettersAt(s, "", 4);
    assert LettersAt(s, "h", 3);
    assert LettersAt(s, "th", 2);
    assert LettersAt(s, "ith", 1);
    assert LettersAt(s, "with", 0);
    assert StartsWithWord(s, "with", wide) && "with" in READ_HEADS;
  }

  /** The head word is all that the read executor looks at: behind `with` any text at all is
      run, a DELETE or UPDATE included, if it keeps to the naming of tenant and shop. */
  lemma WithAdmitsAnything(tail: string, scoped: bool, wide: char -> bool, lower: string -> string)
    requires Normalize("with " + tail) == "with " + tail
    ensures ReadGate("with " + tail, scoped, wide, lower)
         == if Isolated(lower("with " + tail), scoped, wide) then Execute("with " + tail) else Refused
  {
    var s := "with " + tail;
    WithStarts(tail, wide);
    assert !StartsWithWord(s, "select", wide) by {
      if StartsWithWord(s, "select", wide) { LettersFold(s, "select", 0); }
    }
  }
}
