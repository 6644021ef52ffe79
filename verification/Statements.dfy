/** Reading the executed statements back: what the server is told is the input. */
module Statements {
  import opened Text
  import opened Batches

  /** One row of a statement that was read: its table, its columns and its values. */
  datatype Entry = Entry(table: string, fields: string, values: string)

  datatype Insert = Insert(verb: string, rows: seq<Entry>)

  function Between(text: string, from: nat, open: char, close: char): (string, nat)
    requires from <= |text|
    ensures Between(text, from, open, close).1 <= |text|
  {
    var begin := Find(text, open, from);
    if begin == |text| then ("", |text|)
    else
      var end := Find(text, close, begin + 1);
      (text[begin + 1..end], end)
  }

  /** The parenthesised lists from `from` on. */
  function Lists(text: string, from: nat): seq<string>
    requires from <= |text|
    decreases |text| - from
  {
    var begin := Find(text, '(', from);
    if begin == |text| then []
    else
      var (list, end) := Between(text, begin, '(', ')');
      [list] + Lists(text, end)
  }

  function Entries(table: string, fields: string, values: seq<string>): seq<Entry> {
    seq(|values|, i requires 0 <= i < |values| => Entry(table, fields, values[i]))
  }

  /** The verb before the first space, the table between back quotes, the columns in the first
      parentheses, and the values of each row in the ones after them. */
  function Read(text: string): Insert {
    var (table, after) := Between(text, 0, '`', '`');
    var lists := Lists(text, after);
    Insert(text[..Find(text, ' ', 0)],
           if lists == [] then [] else Entries(table, lists[0], lists[1..]))
  }

  function EntriesOf(rows: seq<Row>): seq<Entry> {
    seq(|rows|, i requires 0 <= i < |rows| => Entry(rows[i].table, rows[i].fields, rows[i].values))
  }

  function ReadAll(texts: seq<string>): seq<Entry> {
    if texts == [] then [] else ReadAll(texts[..|texts| - 1]) + Read(texts[|texts| - 1]).rows
  }

  // ---------- statements ----------

  /** No delimiter inside the texts. */
  predicate Plain(row: Row) {
    && '`' !in row.table
    && '(' !in row.fields && ')' !in row.fields
    && '(' !in row.values && ')' !in row.values
  }

  /** Rows of one table. */
  predicate Alike(rows: seq<Row>) {
    forall r | r in rows :: Plain(r) && r.table == rows[0].table && r.fields == rows[0].fields
  }

  predicate PlainVerb(verb: string) {
    ' ' !in verb && '`' !in verb && '(' !in verb
  }

  /** Where a list that begins at `from` is found. */
  lemma ListFound(text: string, from: nat, begin: nat, list: string)
    requires from <= begin && begin + |list| + 1 < |text| && text[begin] == '(' && text[begin + |list| + 1] == ')'
    requires text[begin + 1..begin + |list| + 1] == list && ')' !in list
    requires forall k | from <= k < begin :: text[k] != '('
    ensures Lists(text, from) == [list] + Lists(text, begin + |list| + 1)
  {
    hide Find;
    FindAt(text, '(', from, begin);
    FindAt(text, '(', begin, begin);
    var end := begin + |list| + 1;
    forall k | begin + 1 <= k < end
      ensures text[k] != ')'
    {
      assert text[k] == list[k - begin - 1];
    }
    FindAt(text, ')', begin + 1, end);
  }

  lemma NoList(text: string, from: nat)
    requires from <= |text| && forall k | from <= k < |text| :: text[k] != '('
    ensures Lists(text, from) == []
  {
  }

  /** One more row adds its values at the end. */
  lemma {:induction false} ListsGrow(text: string, from: nat, values: string)
    requires from < |text| && text[|text| - 1] == ')' && '(' !in values && ')' !in values
    ensures Lists(text + ",(" + values + ")", from) == Lists(text, from) + [values]
    decreases |text| - from
  {
    hide Find, Lists;
    var all := text + ",(" + values + ")";
    var begin := Find(text, '(', from);
    if begin == |text| {
      NoList(text, from);
      OneList(text, from, values);
    } else {
      var end := SameList(text, all, from);
      if end < |text| - 1 {
        ListsGrow(text, end, values);
      } else {
        NoList(text, end);
        OneList(text, end, values);
      }
    }
  }

  /** A list of the text before is found in the longer one too. */
  lemma SameList(text: string, all: string, from: nat) returns (end: nat)
    requires from < |text| <= |all| && all[..|text|] == text
    requires text[|text| - 1] == ')' && Find(text, '(', from) < |text|
    ensures from < end < |text|
    ensures var begin := Find(text, '(', from);
      begin < end
      && Lists(text, from) == [text[begin + 1..end]] + Lists(text, end)
      && Lists(all, from) == [text[begin + 1..end]] + Lists(all, end)
  {
    hide Find, Lists;
    var begin := Find(text, '(', from);
    end := Find(text, ')', begin + 1);
    assert end <= |text| - 1;
    var list := text[begin + 1..end];
    assert list == all[begin + 1..end];
    assert all[begin] == text[begin] && all[end] == text[end];
    forall k | from <= k < begin
      ensures all[k] != '('
    {
      assert all[k] == text[k];
    }
    ListFound(text, from, begin, list);
    ListFound(all, from, begin, list);
  }

  /** The added list is the only one after the place where the text has no more. */
  lemma OneList(text: string, from: nat, values: string)
    requires from < |text| && (forall k | from <= k < |text| :: text[k] != '(') && '(' !in values && ')' !in values
    ensures Lists(text + ",(" + values + ")", from) == [values]
  {
    hide Find, Lists;
    var all := text + ",(" + values + ")";
    var n := |text|;
    assert all[n..n + 2] == ",(" && all[n + 2..n + 2 + |values|] == values && all[|all| - 1] == ')';
    assert all[n] == ',' && all[n + 1] == '(';
    forall k | from <= k < n + 1
      ensures all[k] != '('
    {
      assert k < n ==> all[k] == text[k];
    }
    ListFound(all, from, n + 1, values);
    NoList(all, |all| - 1);
  }

  /** A statement's first row. */
  lemma HeadRead(verb: string, row: Row)
    requires PlainVerb(verb) && Plain(row)
    ensures var text := Head(verb, row);
      var (table, after) := Between(text, 0, '`', '`');
      && Find(text, ' ', 0) < |text| && text[..Find(text, ' ', 0)] == verb
      && table == row.table && after < |text| - 1 && text[|text| - 1] == ')'
      && Lists(text, after) == [row.fields, row.values]
  {
    hide Find, Lists;
    var text := Head(verb, row);
    var t := |verb| + 7;
    var quote := t + |row.table|;
    var open := quote + 2;
    var open' := open + |row.fields| + 10;
    HeadTable(verb, row);
    HeadLists(verb, row);
    ListFound(text, quote, open, row.fields);
    ListFound(text, open + |row.fields| + 1, open', row.values);
    NoList(text, |text| - 1);
  }

  /** Where the verb and the table stand. */
  lemma HeadTable(verb: string, row: Row)
    requires PlainVerb(verb) && Plain(row)
    ensures var text, quote := Head(verb, row), |verb| + 7 + |row.table|;
      && Find(text, ' ', 0) < |text| && text[..Find(text, ' ', 0)] == verb
      && Between(text, 0, '`', '`') == (row.table, quote)
  {
    hide Find, Head;
    var text := Head(verb, row);
    var t := |verb| + 7;
    var quote := t + |row.table|;
    HeadFront(verb, row);
    FindAt(text, ' ', 0, |verb|);
    FindAt(text, '`', 0, t - 1);
    forall k | t <= k < quote
      ensures text[k] != '`'
    {
      assert text[k] == text[t..quote][k - t];
    }
    FindAt(text, '`', t, quote);
  }

  lemma HeadFront(verb: string, row: Row)
    requires PlainVerb(verb)
    ensures var text, t := Head(verb, row), |verb| + 7;
      && |text| > t + |row.table|
      && text[..|verb|] == verb && text[|verb|] == ' ' && (forall k | 0 <= k < |verb| :: text[k] != ' ')
      && text[t - 1] == '`' && (forall k | 0 <= k < t - 1 :: text[k] != '`')
      && text[t..t + |row.table|] == row.table && text[t + |row.table|] == '`'
  {
    var text := Head(verb, row);
    assert text[..|verb|] == verb && text[|verb|..|verb| + 7] == " INTO `";
    forall k | 0 <= k < |verb| + 6
      ensures text[k] != '`' && (k < |verb| ==> text[k] != ' ')
    {
      assert if k < |verb| then text[k] == verb[k] else text[k] == " INTO `"[k - |verb|];
    }
  }

  /** Where its lists stand. */
  lemma HeadLists(verb: string, row: Row)
    requires Plain(row)
    ensures var text, open := Head(verb, row), |verb| + 9 + |row.table|;
      var open' := open + |row.fields| + 10;
      && |text| == open' + |row.values| + 2
      && text[open] == '(' && text[open + |row.fields| + 1] == ')'
      && text[open + 1..open + |row.fields| + 1] == row.fields
      && text[open'] == '(' && text[open' + |row.values| + 1] == ')'
      && text[open' + 1..open' + |row.values| + 1] == row.values
      && (forall k | open - 2 <= k < open :: text[k] != '(')
      && (forall k | open + |row.fields| + 1 <= k < open' :: text[k] != '(')
  {
    var text := Head(verb, row);
    var open := |verb| + 9 + |row.table|;
    var open' := open + |row.fields| + 10;
    assert text[open - 2..open + 1] == "` (";
    assert text[open + |row.fields| + 1..open' + 1] == ") VALUES (";
  }

  /** A statement of rows of one table reads back as its verb and the rows in order. */
  lemma StatementRead(verb: string, rows: seq<Row>)
    requires PlainVerb(verb) && Alike(rows) && rows != []
    ensures Read(Statement(verb, rows)) == Insert(verb, EntriesOf(rows))
  {
    hide Find, Lists, Head, Tail;
    StatementParts(verb, rows);
    assert rows[0] in rows;
    var values := Values(rows);
    assert Entries(rows[0].table, rows[0].fields, values) == EntriesOf(rows) by {
      forall i | 0 <= i < |rows|
        ensures Entry(rows[0].table, rows[0].fields, values[i]) == EntriesOf(rows)[i]
      {
        assert rows[i] in rows;
      }
    }
    assert ([rows[0].fields] + values)[1..] == values;
  }

  function Values(rows: seq<Row>): seq<string> {
    seq(|rows|, i requires 0 <= i < |rows| => rows[i].values)
  }

  lemma {:induction false} StatementParts(verb: string, rows: seq<Row>)
    requires PlainVerb(verb) && Alike(rows) && rows != []
    ensures var text := Statement(verb, rows);
      var (table, after) := Between(text, 0, '`', '`');
      && Find(text, ' ', 0) < |text| && text[..Find(text, ' ', 0)] == verb
      && table == rows[0].table && after < |text| - 1 && text[|text| - 1] == ')'
      && Lists(text, after) == [rows[0].fields] + Values(rows)
  {
    hide Find, Lists, Head, Tail, Between;
    assert rows[0] in rows;
    if |rows| == 1 {
      HeadRead(verb, rows[0]);
      assert [rows[0].fields] + Values(rows) == [rows[0].fields, rows[0].values];
    } else {
      var init, last := rows[..|rows| - 1], rows[|rows| - 1];
      assert last in rows && forall r | r in init :: r in rows;
      StatementParts(verb, init);
      var text := Statement(verb, init);
      SameFront(text, Tail(last));
      TailIs(last);
      assert text + Tail(last) == text + ",(" + last.values + ")";
      ListsGrow(text, Between(text, 0, '`', '`').1, last.values);
      assert Values(rows) == Values(init) + [last.values];
    }
  }

  lemma TailIs(row: Row)
    ensures Tail(row) == ",(" + row.values + ")"
  {
  }

  /** What follows a statement does not change its verb and its table. */
  lemma SameFront(text: string, more: string)
    requires Between(text, 0, '`', '`').1 < |text| && Find(text, ' ', 0) < |text|
    ensures Between(text + more, 0, '`', '`') == Between(text, 0, '`', '`')
    ensures Find(text + more, ' ', 0) == Find(text, ' ', 0)
    ensures (text + more)[..Find(text, ' ', 0)] == text[..Find(text, ' ', 0)]
  {
    hide Find;
    var all := text + more;
    var begin := Find(text, '`', 0);
    assert forall k | 0 <= k < |text| :: all[k] == text[k];
    if begin < |text| {
      FindAt(all, '`', 0, begin);
      var end := Find(text, '`', begin + 1);
      FindAt(all, '`', begin + 1, end);
      assert all[begin + 1..end] == text[begin + 1..end];
    }
    var space := Find(text, ' ', 0);
    FindAt(all, ' ', 0, space);
    assert all[..space] == text[..space];
  }

  // ---------- whole loads ----------

  /** A committed load of rows of one table reads back as the rows in order, whatever the policy and
      however often the server refused; a load that ends otherwise reads back as some first rows. */
  lemma CommitReadsBack<S(!new)>(verb: string, canAdd: CanAdd<S>, accepts: nat -> bool, start: S, rows: seq<Row>)
    requires PlainVerb(verb) && Alike(rows)
    ensures var load := LoadAll(verb, canAdd, accepts, start, rows);
      var read := ReadAll(Texts(verb, load.done));
      && read <= EntriesOf(rows)
      && (load.verdict == Running ==> read == EntriesOf(rows))
      && forall text | text in Texts(verb, load.done) :: Read(text).verb == verb
  {
    hide LoadAll, Accounts, Read, Statement;
    var load := LoadAll(verb, canAdd, accepts, start, rows);
    CommitIsComplete(verb, canAdd, accepts, start, rows);
    AccountsMeans(accepts, rows, load);
    BatchesRead(verb, load.done, rows);
    EntriesPrefix(Flatten(load.done), rows);
  }

  lemma AccountsMeans<S(!new)>(accepts: nat -> bool, rows: seq<Row>, load: Load<S>)
    requires Accounts(accepts, rows, load)
    ensures Flatten(load.done) <= rows && forall k: nat | k < |load.done| :: load.done[k] != []
  {
  }

  lemma EntriesPrefix(some: seq<Row>, rows: seq<Row>)
    requires some <= rows
    ensures EntriesOf(some) <= EntriesOf(rows)
  {
  }

  lemma {:induction false} BatchesRead(verb: string, batches: seq<seq<Row>>, rows: seq<Row>)
    requires PlainVerb(verb) && Alike(rows) && Flatten(batches) <= rows
    requires forall k: nat | k < |batches| :: batches[k] != []
    ensures ReadAll(Texts(verb, batches)) == EntriesOf(Flatten(batches))
    ensures forall text | text in Texts(verb, batches) :: Read(text).verb == verb
  {
    hide Read, Statement, Alike;
    if batches != [] {
      var init, last := batches[..|batches| - 1], batches[|batches| - 1];
      BatchesRead(verb, init, rows);
      assert Flatten(batches) == Flatten(init) + last;
      PartAlike(rows, Flatten(init), last);
      StatementRead(verb, last);
      assert Texts(verb, batches) == Texts(verb, init) + [Statement(verb, last)];
      assert EntriesOf(Flatten(init) + last) == EntriesOf(Flatten(init)) + EntriesOf(last);
      ReadOneMore(Texts(verb, init), Statement(verb, last));
    }
  }

  lemma ReadOneMore(texts: seq<string>, text: string)
    ensures ReadAll(texts + [text]) == ReadAll(texts) + Read(text).rows
  {
    assert (texts + [text])[..|texts|] == texts;
  }

  lemma PartAlike(rows: seq<Row>, before: seq<Row>, part: seq<Row>)
    requires Alike(rows) && before + part <= rows && part != []
    ensures Alike(part)
  {
    forall r | r in part
      ensures r in rows
    {
      var i :| 0 <= i < |part| && part[i] == r;
      assert rows[|before| + i] == (before + part)[|before| + i] == r;
    }
    assert part[0] in part;
  }
}
