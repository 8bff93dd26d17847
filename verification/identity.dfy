/** Document and event identities, and how far they identify. */
module Identity {
  import opened Prelude
  import opened Stores
  import opened Events

  // --------------------------------------------------------------- document ids

  /** A column value as the parser meets it; numbers keep their literal. */
  datatype Value = Text(text: string) | Number(literal: string) | Boolean | Null | Compound

  datatype KeyProblem = MissingValue(field: string) | NotAKey(field: string) | EmptyKey(field: string)
    | HoldsSeparator(field: string)

  const Separator := '|'

  function KeyString(v: Value): Option<string> {
    match v
    case Text(text) => Some(TrimSpace(text))
    case Number(literal) => Some(literal)
    case _ => None
  }

  /** What one key column renders to. */
  function Part(row: map<string, Value>, field: string, composite: bool): Result<string, KeyProblem> {
    if field !in row || row[field].Null? then Err(MissingValue(field))
    else
      match KeyString(row[field])
      case None => Err(NotAKey(field))
      case Some(part) =>
        if part == "" then Err(EmptyKey(field))
        else if composite && Separator in part then Err(HoldsSeparator(field))
        else Ok(part)
  }

  function Join(parts: seq<string>): string {
    if parts == [] then "" else if |parts| == 1 then parts[0]
    else Join(parts[..|parts| - 1]) + [Separator] + Last(parts)
  }

  function Split(s: string): seq<string> {
    if Separator !in s then [s]
    else
      var n := FirstIndex(s, Separator);
      [s[..n]] + Split(s[n + 1..])
  }

  function FirstIndex(s: string, c: char): (n: nat)
    requires c in s
    ensures n < |s| && s[n] == c && c !in s[..n]
  {
    if s[0] == c then 0
    else
      assert s == [s[0]] + s[1..];
      1 + FirstIndex(s[1..], c)
  }

  /** The columns' parts, or the first problem among them. */
  function Parts(row: map<string, Value>, fields: seq<string>, composite: bool): Result<seq<string>, KeyProblem> {
    if fields == [] then Ok([])
    else
      match Parts(row, fields[..|fields| - 1], composite)
      case Err(problem) => Err(problem)
      case Ok(before) =>
        match Part(row, Last(fields), composite)
        case Err(problem) => Err(problem)
        case Ok(part) => Ok(before + [part])
  }

  const DefaultKeyFields := ["id"]

  function KeyFields(configured: seq<string>): seq<string> {
    if configured == [] then DefaultKeyFields else configured
  }

  function DocumentIdOf(configured: seq<string>, row: map<string, Value>): Result<string, KeyProblem> {
    var fields := KeyFields(configured);
    match Parts(row, fields, |fields| > 1)
    case Err(problem) => Err(problem)
    case Ok(parts) => Ok(Join(parts))
  }

  method DocumentId(configured: seq<string>, row: map<string, Value>) returns (r: Result<string, KeyProblem>)
    ensures r == DocumentIdOf(configured, row)
  {
    var fields := KeyFields(configured);
    var parts: seq<string> := [];
    for i := 0 to |fields|
      invariant Parts(row, fields[..i], |fields| > 1) == Ok(parts)
    {
      assert fields[..i + 1][..i] == fields[..i];
      var field := fields[i];
      if field !in row || row[field].Null? {
        StopsAt(row, fields, |fields| > 1, i);
        return Err(MissingValue(field));
      }
      var part := KeyString(row[field]);
      if part.None? {
        StopsAt(row, fields, |fields| > 1, i);
        return Err(NotAKey(field));
      }
      if part.value == "" {
        StopsAt(row, fields, |fields| > 1, i);
        return Err(EmptyKey(field));
      }
      if |fields| > 1 && Separator in part.value {
        StopsAt(row, fields, |fields| > 1, i);
        return Err(HoldsSeparator(field));
      }
      parts := parts + [part.value];
    }
    assert fields[..|fields|] == fields;
    r := Ok(Join(parts));
  }

  /** The first problem met is the problem reported. */
  lemma {:induction false} StopsAt(row: map<string, Value>, fields: seq<string>, composite: bool, i: nat)
    requires i < |fields| && Parts(row, fields[..i], composite).Ok? && Part(row, fields[i], composite).Err?
    ensures Parts(row, fields, composite) == Err(Part(row, fields[i], composite).error)
  {
    if i == |fields| - 1 {
    } else {
      assert fields[..|fields| - 1][..i] == fields[..i];
      StopsAt(row, fields[..|fields| - 1], composite, i);
    }
  }

  lemma FirstIs(s: string, c: char, n: nat)
    requires n < |s| && s[n] == c && forall i :: 0 <= i < n ==> s[i] != c
    ensures c in s && FirstIndex(s, c) == n
  {
    var m := FirstIndex(s, c);
    assert forall i :: 0 <= i < m ==> s[..m][i] == s[i];
  }

  lemma SplitsAt(head: string, tail: string)
    requires Separator !in head
    ensures Split(head + [Separator] + tail) == [head] + Split(tail)
  {
    var s := head + [Separator] + tail;
    FirstIs(s, Separator, |head|);
    assert s[..|head|] == head && s[|head| + 1..] == tail;
  }

  lemma OneMore(head: string, tail: string, rest: string, part: string)
    requires Separator !in head && Split(rest) == Split(tail) + [part]
    ensures Split(head + [Separator] + rest) == Split(head + [Separator] + tail) + [part]
  {
    SplitsAt(head, tail);
    SplitsAt(head, rest);
  }

  lemma Regroup(a: string, b: string, c: string, d: string, e: string)
    ensures a + b + c + d + e == a + b + (c + d + e)
  {
  }

  lemma CutAt(s: string, n: nat) returns (head: string, tail: string)
    requires n < |s|
    ensures head == s[..n] && s == head + [s[n]] + tail && |tail| < |s|
  {
    head, tail := s[..n], s[n + 1..];
  }

  lemma {:induction false} SplitAppend(s: string, part: string)
    requires Separator !in part
    ensures Split(s + [Separator] + part) == Split(s) + [part]
    decreases |s|
  {
    if Separator !in s {
      SplitsAt(s, part);
    } else {
      var head, tail := CutAt(s, FirstIndex(s, Separator));
      SplitAppend(tail, part);
      OneMore(head, tail, tail + [Separator] + part, part);
      Regroup(head, [Separator], tail, [Separator], part);
    }
  }

  lemma JoinMore(before: seq<string>, part: string)
    requires before != []
    ensures Join(before + [part]) == Join(before) + [Separator] + part
  {
    assert (before + [part])[..|before|] == before;
  }

  /** Splitting a composite id returns exactly the parts it was joined from. */
  lemma {:induction false} SplitJoin(parts: seq<string>)
    requires parts != [] && forall i :: 0 <= i < |parts| ==> Separator !in parts[i]
    ensures Split(Join(parts)) == parts
  {
    if |parts| > 1 {
      var before, part := parts[..|parts| - 1], Last(parts);
      assert parts == before + [part];
      SplitJoin(before);
      SplitAppend(Join(before), part);
      JoinMore(before, part);
    }
  }

  lemma {:induction false} PartsShape(row: map<string, Value>, fields: seq<string>, composite: bool)
    requires Parts(row, fields, composite).Ok?
    ensures |Parts(row, fields, composite).value| == |fields|
    ensures forall i :: 0 <= i < |fields| ==>
      && Part(row, fields[i], composite) == Ok(Parts(row, fields, composite).value[i])
      && Parts(row, fields, composite).value[i] != ""
      && (composite ==> Separator !in Parts(row, fields, composite).value[i])
  {
    if fields != [] {
      PartsShape(row, fields[..|fields| - 1], composite);
    }
  }

  /** A document id is accepted exactly when every key column renders to a part,
      and it gives the parts back. */
  lemma CompositeIdDecodes(configured: seq<string>, row: map<string, Value>)
    requires |KeyFields(configured)| > 1
    ensures
      DocumentIdOf(configured, row).Ok?
      <==> forall i :: 0 <= i < |KeyFields(configured)| ==> Part(row, KeyFields(configured)[i], true).Ok?
    ensures DocumentIdOf(configured, row).Ok? ==>
      Ok(Split(DocumentIdOf(configured, row).value)) == Parts(row, KeyFields(configured), true)
  {
    var fields := KeyFields(configured);
    if Parts(row, fields, true).Ok? {
      PartsShape(row, fields, true);
      SplitJoin(Parts(row, fields, true).value);
    } else {
      SomePartFails(row, fields, true);
    }
  }

  lemma {:induction false} SomePartFails(row: map<string, Value>, fields: seq<string>, composite: bool)
    requires Parts(row, fields, composite).Err?
    ensures exists i :: 0 <= i < |fields| && Part(row, fields[i], composite).Err?
  {
    var n := |fields| - 1;
    if Parts(row, fields[..n], composite).Err? {
      SomePartFails(row, fields[..n], composite);
      var i :| 0 <= i < n && Part(row, fields[..n][i], composite).Err?;
      assert fields[i] == fields[..n][i];
    } else {
      assert Part(row, fields[n], composite).Err?;
    }
  }

  /** Two rows share a document id exactly when all their key columns render
      alike. */
  lemma SameIdSameParts(configured: seq<string>, r: map<string, Value>, s: map<string, Value>)
    requires DocumentIdOf(configured, r).Ok? && DocumentIdOf(configured, s).Ok?
    ensures
      DocumentIdOf(configured, r) == DocumentIdOf(configured, s)
      <==> forall i :: 0 <= i < |KeyFields(configured)| ==>
             Part(r, KeyFields(configured)[i], |KeyFields(configured)| > 1)
             == Part(s, KeyFields(configured)[i], |KeyFields(configured)| > 1)
  {
    var fields := KeyFields(configured);
    var composite := |fields| > 1;
    PartsShape(r, fields, composite);
    PartsShape(s, fields, composite);
    if composite {
      CompositeIdDecodes(configured, r);
      CompositeIdDecodes(configured, s);
    }
    var a, b := Parts(r, fields, composite).value, Parts(s, fields, composite).value;
    assert a == b <==> forall i :: 0 <= i < |fields| ==> a[i] == b[i];
    assert !composite ==> Join(a) == a[0] && Join(b) == b[0];
  }

  /** What a value contributes to a document id: a number its literal, a text what is left
      without white space around it, anything else nothing. */
  ghost predicate Renders(v: Value, part: string) {
    match v
    case Number(literal) => part == literal
    case Text(text) => Trimmed(text, part)
    case _ => false
  }

  /** A column is accepted exactly when its value renders to something, without the
      separator in a composite key, and otherwise the problem says what was wrong. */
  lemma PartMeaning(row: map<string, Value>, field: string, composite: bool, part: string)
    ensures
      Part(row, field, composite) == Ok(part)
      <==> field in row && Renders(row[field], part) && part != "" && (composite ==> '|' !in part)
    ensures Part(row, field, composite) == Err(MissingValue(field)) <==> field !in row || row[field] == Null
    ensures
      Part(row, field, composite) == Err(NotAKey(field))
      <==> field in row && (row[field] == Boolean || row[field] == Compound)
    ensures Part(row, field, composite) == Err(EmptyKey(field)) <==> field in row && Renders(row[field], "")
    ensures
      field in row && Renders(row[field], part) && composite && '|' in part ==>
      Part(row, field, composite) == Err(HoldsSeparator(field))
  {
    if field in row && row[field].Text? {
      TrimMeaning(row[field].text, part);
      TrimMeaning(row[field].text, "");
    }
  }

  /** A document id is the key columns' parts with a bar between each two; a key of one
      column is its part alone, and without configuration that column is "id". */
  lemma DocumentIdMeaning(configured: seq<string>, row: map<string, Value>, parts: seq<string>)
    requires |parts| == |KeyFields(configured)|
    ensures KeyFields(configured) == if configured == [] then ["id"] else configured
    ensures
      Parts(row, KeyFields(configured), |parts| > 1) == Ok(parts)
      <==>
      forall i :: 0 <= i < |parts| ==>
        && KeyFields(configured)[i] in row && Renders(row[KeyFields(configured)[i]], parts[i]) && parts[i] != ""
        && (|parts| > 1 ==> '|' !in parts[i])
    ensures
      Parts(row, KeyFields(configured), |parts| > 1) == Ok(parts) ==>
      DocumentIdOf(configured, row) == Ok(Join(parts))
    ensures |parts| == 1 ==> Join(parts) == parts[0]
    ensures |parts| > 1 ==> Join(parts) == Join(parts[..|parts| - 1]) + "|" + parts[|parts| - 1]
  {
    var fields := KeyFields(configured);
    forall i | 0 <= i < |parts|
      ensures
        Part(row, fields[i], |parts| > 1) == Ok(parts[i])
        <==>
        && fields[i] in row && Renders(row[fields[i]], parts[i]) && parts[i] != ""
        && (|parts| > 1 ==> '|' !in parts[i])
    {
      PartMeaning(row, fields[i], |parts| > 1, parts[i]);
    }
    PartsExactly(row, fields, |parts| > 1, parts);
  }

  lemma {:induction false} PartsExactly(
    row: map<string, Value>, fields: seq<string>, composite: bool, parts: seq<string>)
    requires |parts| == |fields|
    ensures
      Parts(row, fields, composite) == Ok(parts)
      <==> forall i :: 0 <= i < |parts| ==> Part(row, fields[i], composite) == Ok(parts[i])
  {
    if fields != [] {
      var n := |fields| - 1;
      PartsExactly(row, fields[..n], composite, parts[..n]);
      assert parts == parts[..n] + [parts[n]];
    }
  }

  /** The column holds a number whose literal can stand in any key. */
  predicate NumberAt(row: map<string, Value>, field: string) {
    field in row && row[field].Number? && row[field].literal != "" && '|' !in row[field].literal
  }

  lemma NumberPart(row: map<string, Value>, field: string, composite: bool)
    requires NumberAt(row, field)
    ensures Part(row, field, composite) == Ok(row[field].literal)
  {
    PartMeaning(row, field, composite, row[field].literal);
  }

  lemma {:induction false} NumberParts(row: map<string, Value>, fields: seq<string>, composite: bool)
    requires forall i :: 0 <= i < |fields| ==> NumberAt(row, fields[i])
    ensures Parts(row, fields, composite).Ok?
  {
    if fields != [] {
      NumberParts(row, fields[..|fields| - 1], composite);
      NumberPart(row, Last(fields), composite);
    }
  }

  /** Rows whose key columns are numbers share an id exactly when all the numbers are
      written alike. */
  lemma NumberKeysShare(configured: seq<string>, r: map<string, Value>, s: map<string, Value>)
    requires forall i :: 0 <= i < |KeyFields(configured)| ==> NumberAt(r, KeyFields(configured)[i])
    requires forall i :: 0 <= i < |KeyFields(configured)| ==> NumberAt(s, KeyFields(configured)[i])
    ensures DocumentIdOf(configured, r).Ok? && DocumentIdOf(configured, s).Ok?
    ensures
      DocumentIdOf(configured, r) == DocumentIdOf(configured, s)
      <==> forall i :: 0 <= i < |KeyFields(configured)| ==>
             && NumberAt(r, KeyFields(configured)[i]) && NumberAt(s, KeyFields(configured)[i])
             && r[KeyFields(configured)[i]].literal == s[KeyFields(configured)[i]].literal
  {
    var fields := KeyFields(configured);
    NumberParts(r, fields, |fields| > 1);
    NumberParts(s, fields, |fields| > 1);
    SameIdSameParts(configured, r, s);
    forall i | 0 <= i < |fields|
      ensures NumberAt(r, fields[i]) && NumberAt(s, fields[i])
      ensures
        Part(r, fields[i], |fields| > 1) == Part(s, fields[i], |fields| > 1)
        <==> r[fields[i]].literal == s[fields[i]].literal
    {
      NumberPart(r, fields[i], |fields| > 1);
      NumberPart(s, fields[i], |fields| > 1);
    }
  }

  /** Rendering trims text, so keys that differ only in surrounding space are one
      document. */
  lemma PaddedKeysCollide()
    ensures
      DocumentIdOf([], map["id" := Text("a")]) == DocumentIdOf([], map["id" := Text(" a")]) == Ok("a")
  {
    OneColumn(map["id" := Text("a")], "id", "a");
    OneColumn(map["id" := Text(" a")], "id", "a");
  }

  lemma OneColumn(row: map<string, Value>, field: string, part: string)
    requires Part(row, field, false) == Ok(part)
    ensures Parts(row, [field], false) == Ok([part]) && DocumentIdOf([field], row) == Ok(part)
  {
    assert [field][..0] == [];
    assert Parts(row, [], false) == Ok([]);
    assert [] + [part] == [part];
  }

  // ------------------------------------------------------------------ envelopes

  /** The part of a Debezium envelope that names a document. A row that is null or
      missing is None. */
  datatype Envelope = Envelope(op: string, before: Option<map<string, Value>>, after: Option<map<string, Value>>)

  datatype ParseProblem = BadOperation(op: string) | NoRow(field: string) | BadKey(problem: KeyProblem)

  function ParseOperation(op: string): Result<Operation, ParseProblem> {
    if op == "c" then Ok(OperationCreate)
    else if op == "u" then Ok(OperationUpdate)
    else if op == "d" then Ok(OperationDelete)
    else if op == "r" then Ok(OperationRead)
    else Err(BadOperation(op))
  }

  /** The operation of an envelope, the row it is about and that row's document. */
  function ParseEnvelope(configured: seq<string>, env: Envelope)
    : Result<(Operation, map<string, Value>, string), ParseProblem>
  {
    match ParseOperation(env.op)
    case Err(problem) => Err(problem)
    case Ok(op) =>
      var (row, field) := if op == OperationDelete then (env.before, "before") else (env.after, "after");
      if row.None? then Err(NoRow(field))
      else
        match DocumentIdOf(configured, row.value)
        case Err(problem) => Err(BadKey(problem))
        case Ok(id) => Ok((op, row.value, id))
  }

  /** Exactly which envelopes are accepted, and what each is about: a delete is about the
      row as it was, everything else about the row as it is. */
  lemma EnvelopeMeaning(
    configured: seq<string>, env: Envelope, op: Operation, row: map<string, Value>, id: string)
    ensures
      ParseEnvelope(configured, env) == Ok((op, row, id))
      <==>
      && DocumentIdOf(configured, row) == Ok(id)
      && (|| (env.op == "c" && op == OperationCreate && env.after == Some(row))
          || (env.op == "u" && op == OperationUpdate && env.after == Some(row))
          || (env.op == "r" && op == OperationRead && env.after == Some(row))
          || (env.op == "d" && op == OperationDelete && env.before == Some(row)))
    ensures
      env.op !in ["c", "u", "d", "r"] <==> ParseEnvelope(configured, env) == Err(BadOperation(env.op))
    ensures env.op == "d" && env.before.None? ==> ParseEnvelope(configured, env) == Err(NoRow("before"))
    ensures env.op in ["c", "u", "r"] && env.after.None? ==> ParseEnvelope(configured, env) == Err(NoRow("after"))
  {
  }

  /** Rows that agree on the key columns. */
  predicate SameKey(configured: seq<string>, r: map<string, Value>, s: map<string, Value>) {
    forall field <- KeyFields(configured) ::
      (field in r <==> field in s) && (field in r ==> r[field] == s[field])
  }

  lemma {:induction false} SameKeySameParts(
    r: map<string, Value>, s: map<string, Value>, fields: seq<string>, composite: bool)
    requires forall field <- fields :: (field in r <==> field in s) && (field in r ==> r[field] == s[field])
    ensures Parts(r, fields, composite) == Parts(s, fields, composite)
  {
    if fields != [] {
      assert Last(fields) in fields;
      SameKeySameParts(r, s, fields[..|fields| - 1], composite);
    }
  }

  /** A row keeps its document through its whole life: whatever else changes, every
      accepted event of a row with the same key names the same document, and so does
      the delete that carries the row as it was before. */
  lemma RowKeepsDocument(configured: seq<string>, write: Envelope, later: Envelope)
    requires ParseEnvelope(configured, write).Ok? && ParseOperation(later.op).Ok?
    requires
      var row := if later.op == "d" then later.before else later.after;
      row.Some? && SameKey(configured, ParseEnvelope(configured, write).value.1, row.value)
    ensures ParseEnvelope(configured, later).Ok?
    ensures ParseEnvelope(configured, later).value.2 == ParseEnvelope(configured, write).value.2
  {
    var row := if later.op == "d" then later.before.value else later.after.value;
    var fields := KeyFields(configured);
    SameKeySameParts(ParseEnvelope(configured, write).value.1, row, fields, |fields| > 1);
  }

  // ------------------------------------------------------------------- event ids

  function Digits(n: nat): string {
    if n < 10 then [Digit(n)] else Digits(n / 10) + [Digit(n % 10)]
  }

  function Digit(d: nat): char
    requires d < 10
  {
    '0' + d as char
  }

  function FormatInt(n: int): string {
    if n < 0 then "-" + Digits(-n) else Digits(n)
  }

  function OperationName(op: Operation): string {
    match op
    case OperationCreate => "CREATE"
    case OperationUpdate => "UPDATE"
    case OperationDelete => "DELETE"
    case OperationRead => "READ"
    case OperationOther(name) => name
  }

  function QualifiedTable(ev: ChangeEvent): string {
    if ev.schema != "" && ev.table != "" then ev.schema + "." + ev.table
    else if ev.table != "" then ev.table
    else "unknown"
  }

  function Position(ev: ChangeEvent): string {
    if ev.lsn > 0 then "lsn:" + FormatInt(ev.lsn)
    else if ev.timestamp.Some? then "ts:" + FormatInt(ev.timestamp.value)
    else "unknown"
  }

  function EventId(ev: ChangeEvent): string {
    QualifiedTable(ev) + ":" + ev.id + ":" + OperationName(ev.operation) + "@" + Position(ev)
  }

  lemma {:induction false} DigitsShape(n: nat)
    ensures Digits(n) != "" && forall i :: 0 <= i < |Digits(n)| ==> '0' <= Digits(n)[i] <= '9'
  {
    if n >= 10 {
      DigitsShape(n / 10);
    }
  }

  /** The number a text of digits stands for. */
  function Decimal(s: string): nat
    requires forall i :: 0 <= i < |s| ==> '0' <= s[i] <= '9'
  {
    if s == "" then 0 else Decimal(s[..|s| - 1]) * 10 + (s[|s| - 1] as int - 48)
  }

  /** A number is written in decimal, without leading zeros. */
  lemma {:induction false} DigitsMeaning(n: nat)
    ensures Digits(n) != "" && forall i :: 0 <= i < |Digits(n)| ==> '0' <= Digits(n)[i] <= '9'
    ensures Decimal(Digits(n)) == n
    ensures n > 0 ==> Digits(n)[0] != '0'
  {
    DigitsShape(n);
    if n >= 10 {
      DigitsMeaning(n / 10);
      assert Digits(n)[..|Digits(n)| - 1] == Digits(n / 10);
      assert Digits(n)[0] == Digits(n / 10)[0];
    } else {
      assert [Digit(n)][..0] == [];
    }
  }

  /** The event id of an ordinary event, written out. */
  lemma EventIdText(e: ChangeEvent)
    requires e.schema != "" && e.table != "" && e.lsn > 0 && e.operation.Valid()
    ensures
      var name := match e.operation {
        case OperationCreate => "CREATE"
        case OperationUpdate => "UPDATE"
        case OperationDelete => "DELETE"
        case OperationRead => "READ"
        case OperationOther(other) => other
      };
      EventId(e) == e.schema + "." + e.table + ":" + e.id + ":" + name + "@lsn:" + Digits(e.lsn)
  {
    var before := e.schema + "." + e.table + ":" + e.id + ":" + OperationName(e.operation);
    assert EventId(e) == before + "@" + ("lsn:" + Digits(e.lsn));
    Joins(before, "@", "lsn:", Digits(e.lsn));
    assert "@" + "lsn:" == "@lsn:";
  }

  lemma Joins(a: string, b: string, c: string, d: string)
    ensures a + b + (c + d) == a + (b + c) + d
  {
  }

  /** ... and of one without a log position. */
  lemma EventIdWithoutLsn(e: ChangeEvent)
    requires e.lsn <= 0
    ensures
      EventId(e)
      == (if e.table == "" then "unknown" else if e.schema == "" then e.table else e.schema + "." + e.table)
         + ":" + e.id + ":" + OperationName(e.operation) + "@"
         + (if e.timestamp.None? then "unknown"
            else if e.timestamp.value < 0 then "ts:-" + Digits(-e.timestamp.value)
            else "ts:" + Digits(e.timestamp.value))
  {
    if e.timestamp.Some? && e.timestamp.value < 0 {
      assert "ts:" + ("-" + Digits(-e.timestamp.value)) == "ts:-" + Digits(-e.timestamp.value);
    }
  }

  lemma {:induction false} DigitsInjective(m: nat, n: nat)
    requires Digits(m) == Digits(n)
    ensures m == n
  {
    DigitsShape(m / 10);
    DigitsShape(n / 10);
    var s := Digits(m);
    if m >= 10 && n >= 10 {
      assert Digits(m)[..|s| - 1] == Digits(m / 10);
      assert Digits(n)[..|s| - 1] == Digits(n / 10);
      assert Digits(m)[|s| - 1] == Digit(m % 10);
      assert Digits(n)[|s| - 1] == Digit(n % 10);
      DigitsInjective(m / 10, n / 10);
    } else if m < 10 && n < 10 {
      assert s[0] == Digit(m) == Digit(n);
    }
  }

  lemma FormatInjective(m: int, n: int)
    requires FormatInt(m) == FormatInt(n)
    ensures m == n
  {
    DigitsShape(if m < 0 then -m else m);
    DigitsShape(if n < 0 then -n else n);
    assert FormatInt(m)[0] == '-' <==> m < 0;
    assert FormatInt(n)[0] == '-' <==> n < 0;
    if m < 0 {
      assert FormatInt(m)[1..] == Digits(-m) && FormatInt(n)[1..] == Digits(-n);
      DigitsInjective(-m, -n);
    } else {
      DigitsInjective(m, n);
    }
  }

  /** Texts joined by a character that the second parts do not contain come apart
      at its last occurrence. */
  lemma SplitsAtLast(a: string, b: string, x: string, y: string, c: char)
    requires a + [c] + x == b + [c] + y && c !in x && c !in y
    ensures a == b && x == y
  {
    AllAfter(a, x, c, |b|);
    AllAfter(b, y, c, |a|);
    Halves(a, x, c);
    Halves(b, y, c);
  }

  lemma AllAfter(a: string, x: string, c: char, n: nat)
    requires c !in x && n < |a + [c] + x| && (a + [c] + x)[n] == c
    ensures n <= |a|
  {
    var s := a + [c] + x;
    forall i | |a| < i < |s|
      ensures s[i] != c
    {
      assert s[i] == x[i - |a| - 1];
    }
  }

  lemma Halves(a: string, x: string, c: char)
    ensures (a + [c] + x)[..|a|] == a && (a + [c] + x)[|a|] == c && (a + [c] + x)[|a| + 1..] == x
  {
  }

  /** ... or, when the first parts do not contain it, at its first. */
  lemma SplitsAtFirst(a: string, b: string, x: string, y: string, c: char)
    requires a + [c] + x == b + [c] + y && c !in a && c !in b
    ensures a == b && x == y
  {
    AllBefore(a, x, c, |b|);
    AllBefore(b, y, c, |a|);
    Halves(a, x, c);
    Halves(b, y, c);
  }

  lemma AllBefore(a: string, x: string, c: char, n: nat)
    requires c !in a && n < |a + [c] + x| && (a + [c] + x)[n] == c
    ensures n >= |a|
  {
    var s := a + [c] + x;
    forall i | 0 <= i < |a|
      ensures s[i] != c
    {
      assert s[i] == a[i];
    }
  }

  lemma OperationShape(op: Operation)
    requires op.Valid()
    ensures ':' !in OperationName(op) && '@' !in OperationName(op)
  {
  }

  lemma PositionShape(ev: ChangeEvent)
    ensures '@' !in Position(ev)
  {
    DigitsShape(if ev.lsn < 0 then -ev.lsn else ev.lsn);
    if ev.timestamp.Some? {
      DigitsShape(if ev.timestamp.value < 0 then -ev.timestamp.value else ev.timestamp.value);
    }
  }

  /** The point in the source log that an id carries. */
  datatype Point = Lsn(lsn: int) | Time(millis: int) | Nowhere

  function PointOf(ev: ChangeEvent): Point {
    if ev.lsn > 0 then Lsn(ev.lsn) else if ev.timestamp.Some? then Time(ev.timestamp.value) else Nowhere
  }

  lemma PositionInjective(e: ChangeEvent, f: ChangeEvent)
    requires Position(e) == Position(f)
    ensures PointOf(e) == PointOf(f)
  {
    var p, q := Position(e), Position(f);
    assert p[0] == 'l' <==> e.lsn > 0;
    assert q[0] == 'l' <==> f.lsn > 0;
    assert p[0] == 't' <==> e.lsn <= 0 && e.timestamp.Some?;
    assert q[0] == 't' <==> f.lsn <= 0 && f.timestamp.Some?;
    if e.lsn > 0 {
      assert p[4..] == FormatInt(e.lsn) && q[4..] == FormatInt(f.lsn);
      FormatInjective(e.lsn, f.lsn);
    } else if e.timestamp.Some? {
      assert p[3..] == FormatInt(e.timestamp.value) && q[3..] == FormatInt(f.timestamp.value);
      FormatInjective(e.timestamp.value, f.timestamp.value);
    }
  }

  /** Events of one table name, document, operation and log position. */
  predicate SameChange(e: ChangeEvent, f: ChangeEvent) {
    && QualifiedTable(e) == QualifiedTable(f) && e.id == f.id
    && e.operation == f.operation && PointOf(e) == PointOf(f)
  }

  /** What an event id holds before its operation. */
  function Subject(e: ChangeEvent): string {
    QualifiedTable(e) + ":" + e.id
  }

  /** Event ids are equal exactly when what stands before the operation, the operation
      and the log position are, for any table names and document ids. */
  lemma EventIdParts(e: ChangeEvent, f: ChangeEvent)
    requires e.operation.Valid() && f.operation.Valid()
    ensures
      EventId(e) == EventId(f)
      <==> Subject(e) == Subject(f) && e.operation == f.operation && PointOf(e) == PointOf(f)
  {
    if EventId(e) == EventId(f) {
      EventIdSplits(e, f);
    } else if PointOf(e) == PointOf(f) {
      assert Position(e) == Position(f);
    }
  }

  lemma EventIdSplits(e: ChangeEvent, f: ChangeEvent)
    requires e.operation.Valid() && f.operation.Valid() && EventId(e) == EventId(f)
    ensures Subject(e) == Subject(f) && e.operation == f.operation && PointOf(e) == PointOf(f)
  {
    OperationShape(e.operation);
    OperationShape(f.operation);
    PositionShape(e);
    PositionShape(f);
    var a, b := Subject(e), Subject(f);
    var x, y := OperationName(e.operation), OperationName(f.operation);
    assert EventId(e) == (a + ":" + x) + ['@'] + Position(e);
    assert EventId(f) == (b + ":" + y) + ['@'] + Position(f);
    SplitsAtLast(a + ":" + x, b + ":" + y, Position(e), Position(f), '@');
    SplitsAtLast(a, b, x, y, ':');
    PositionInjective(e, f);
  }

  /** Event ids are equal exactly for events that agree on table name, document,
      operation and log position, whatever characters their document ids hold, if
      no table name holds a colon. */
  lemma EventIdIdentifies(e: ChangeEvent, f: ChangeEvent)
    requires e.operation.Valid() && f.operation.Valid()
    requires ':' !in QualifiedTable(e) && ':' !in QualifiedTable(f)
    ensures EventId(e) == EventId(f) <==> SameChange(e, f)
  {
    if EventId(e) == EventId(f) {
      EventIdParts(e, f);
      SplitsAtFirst(QualifiedTable(e), QualifiedTable(f), e.id, f.id, ':');
    }
  }

  /** The event that another one's id can be mistaken for: its table ends at some
      colon, and the rest is its document. */
  function Mistaken(e: ChangeEvent, n: nat): ChangeEvent
    requires n < |Subject(e)|
  {
    e.(schema := "", table := Subject(e)[..n], id := Subject(e)[n + 1..])
  }

  lemma MistakenSharesId(e: ChangeEvent, n: nat)
    requires 0 < n < |Subject(e)| && n != |QualifiedTable(e)| && Subject(e)[n] == ':'
    ensures EventId(Mistaken(e, n)) == EventId(e) && !SameChange(e, Mistaken(e, n))
  {
    var s, f := Subject(e), Mistaken(e, n);
    assert s[..n] + ":" + s[n + 1..] == s;
    assert QualifiedTable(f) == s[..n] && Position(f) == Position(e);
  }

  /** Another reading of the same subject splits it at another colon. */
  lemma OtherSplit(e: ChangeEvent, f: ChangeEvent)
    requires e.operation.Valid() && f.operation.Valid() && EventId(f) == EventId(e) && !SameChange(e, f)
    ensures
      var n := |QualifiedTable(f)|;
      && 0 < n < |Subject(e)| && n != |QualifiedTable(e)| && Subject(e)[n] == ':'
      && f.id == Subject(e)[n + 1..]
  {
    EventIdParts(e, f);
    var n := |QualifiedTable(f)|;
    Halves(QualifiedTable(e), e.id, ':');
    Halves(QualifiedTable(f), f.id, ':');
    assert Subject(e) == Subject(f);
    assert Subject(e) == QualifiedTable(e) + [':'] + e.id && Subject(f) == QualifiedTable(f) + [':'] + f.id;
  }

  /** Subject(e) has a colon at which it can be split another way, into a table name
      and a document id of at least so many characters. */
  predicate Ambiguous(e: ChangeEvent, least: nat) {
    exists n :: 0 < n < |Subject(e)| - least && n != |QualifiedTable(e)| && Subject(e)[n] == ':'
  }

  /** An event shares its id with a different change exactly when its table name and
      document id, joined, hold a colon other than in front and between them; with a
      change to a document that has an id, when that colon is not the last character
      either. */
  lemma EventIdShared(e: ChangeEvent)
    requires e.operation.Valid()
    ensures
      (exists f: ChangeEvent :: f.operation.Valid() && EventId(f) == EventId(e) && !SameChange(e, f))
      <==> Ambiguous(e, 0)
    ensures
      (exists f: ChangeEvent ::
        f.operation.Valid() && f.id != "" && EventId(f) == EventId(e) && !SameChange(e, f))
      <==> Ambiguous(e, 1)
  {
    if n :| 0 < n < |Subject(e)| && n != |QualifiedTable(e)| && Subject(e)[n] == ':' {
      MistakenSharesId(e, n);
    }
    if n :| 0 < n < |Subject(e)| - 1 && n != |QualifiedTable(e)| && Subject(e)[n] == ':' {
      MistakenSharesId(e, n);
      assert Mistaken(e, n).id != "";
    }
    forall f: ChangeEvent | f.operation.Valid() && EventId(f) == EventId(e) && !SameChange(e, f)
      ensures Ambiguous(e, if f.id == "" then 0 else 1)
    {
      OtherSplit(e, f);
    }
  }

  /** Neither name needs to hold a colon alone for that: a colon in one event's
      document can be the end of another's table. */
  lemma ColonCollides(row: Option<Row>, lsn: int)
    ensures
      var e := ChangeEvent("a:b", OperationCreate, "", "t", row, None, lsn);
      var f := ChangeEvent("b", OperationCreate, "", "t:a", row, None, lsn);
      EventId(e) == EventId(f) && !SameChange(e, f)
  {
    var e := ChangeEvent("a:b", OperationCreate, "", "t", row, None, lsn);
    assert Subject(e) == "t:a:b" && "t:a:b"[..3] == "t:a" && "t:a:b"[4..] == "b";
    MistakenSharesId(e, 3);
    assert Mistaken(e, 3) == ChangeEvent("b", OperationCreate, "", "t:a", row, None, lsn);
  }

  // ------------------------------------------------------- what a rendering hides

  /** b's schema takes in the first parts of a's table. */
  predicate Shifted(a: ChangeEvent, b: ChangeEvent) {
    && |a.schema| < |b.schema|
    && b.schema[..|a.schema| + 1] == a.schema + "."
    && a.table == b.schema[|a.schema| + 1..] + "." + b.table
  }

  predicate Named(e: ChangeEvent) {
    e.table != ""
  }

  /** Tables render alike exactly when they are the same, or both have no name, or one
      is called unknown and the other has no name, or a table without a schema has the
      other's schema in its name, or a dot moves between schema and table. */
  lemma TablesRenderAlike(e: ChangeEvent, f: ChangeEvent)
    ensures
      QualifiedTable(e) == QualifiedTable(f)
      <==>
      || (Named(e) && Named(f) && e.schema == f.schema && e.table == f.table)
      || (!Named(e) && !Named(f))
      || (!Named(e) && Named(f) && f.schema == "" && f.table == "unknown")
      || (!Named(f) && Named(e) && e.schema == "" && e.table == "unknown")
      || (Named(e) && Named(f) && e.schema == "" && f.schema != "" && e.table == f.schema + "." + f.table)
      || (Named(e) && Named(f) && f.schema == "" && e.schema != "" && f.table == e.schema + "." + e.table)
      || (Named(e) && Named(f) && e.schema != "" && f.schema != "" && (Shifted(e, f) || Shifted(f, e)))
  {
    UnknownHasNoDot(e);
    UnknownHasNoDot(f);
    if e.schema != "" && f.schema != "" {
      if |e.schema| < |f.schema| {
        DotMoves(e.schema, e.table, f.schema, f.table);
      } else if |f.schema| < |e.schema| {
        DotMoves(f.schema, f.table, e.schema, e.table);
      } else {
        Halves(e.schema, e.table, '.');
        Halves(f.schema, f.table, '.');
      }
    }
  }

  lemma UnknownHasNoDot(e: ChangeEvent)
    ensures Named(e) && e.schema != "" ==> QualifiedTable(e) != "unknown"
  {
    assert Named(e) && e.schema != "" ==> QualifiedTable(e)[|e.schema|] == '.';
  }

  lemma DotMoves(a: string, x: string, b: string, y: string)
    requires |a| < |b|
    ensures a + "." + x == b + "." + y <==> b[..|a| + 1] == a + "." && x == b[|a| + 1..] + "." + y
  {
    var m := |a| + 1;
    assert b[..m] + (b[m..] + "." + y) == b + "." + y;
    if a + "." + x == b + "." + y {
      assert (a + "." + x)[..m] == a + "." && (b + "." + y)[..m] == b[..m];
      assert (a + "." + x)[m..] == x && (b + "." + y)[m..] == b[m..] + "." + y;
    }
  }

  /** So events of two tables can share an id without a colon anywhere ... */
  lemma DotCollides(id: string, row: Option<Row>, lsn: int)
    ensures
      EventId(ChangeEvent(id, OperationCreate, "a", "b.c", row, None, lsn))
      == EventId(ChangeEvent(id, OperationCreate, "a.b", "c", row, None, lsn))
  {
    assert "a" + "." + "b.c" == "a.b" + "." + "c";
  }

  /** ... but not when tables have names and schemas without dots. */
  lemma PlainNamesIdentify(e: ChangeEvent, f: ChangeEvent)
    requires Named(e) && Named(f) && (e.schema == "" <==> f.schema == "")
    requires '.' !in e.schema && '.' !in f.schema
    ensures QualifiedTable(e) == QualifiedTable(f) <==> e.schema == f.schema && e.table == f.table
  {
    TablesRenderAlike(e, f);
    ShiftedHasDot(e, f);
    ShiftedHasDot(f, e);
  }

  lemma ShiftedHasDot(a: ChangeEvent, b: ChangeEvent)
    ensures Shifted(a, b) ==> '.' in b.schema
  {
    assert (a.schema + ".")[|a.schema|] == '.';
    assert Shifted(a, b) ==> b.schema[|a.schema|] == b.schema[..|a.schema| + 1][|a.schema|];
  }

  /** An event has a place of its own in the log only by its LSN. Without one it
      shares its place with every other event without one of the same millisecond,
      or, when no time was reported either, with all of those. */
  lemma PlacesCoincide(e: ChangeEvent, f: ChangeEvent)
    ensures
      Position(e) == Position(f)
      <==>
      if e.lsn > 0 || f.lsn > 0 then e.lsn == f.lsn else e.timestamp == f.timestamp
  {
    if Position(e) == Position(f) {
      PositionInjective(e, f);
    }
  }

  /** Two updates of a row in one millisecond, without an LSN, share an id. */
  lemma NoLsnCollides(id: string, millis: int)
    ensures
      var e := ChangeEvent(id, OperationUpdate, "", "t", Some(Row("a", "", "", 0, 1)), Some(millis), 0);
      var f := ChangeEvent(id, OperationUpdate, "", "t", Some(Row("b", "", "", 0, 2)), Some(millis), 0);
      EventId(e) == EventId(f) && e != f
  {
  }
}
