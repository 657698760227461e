/** The SQLite side of the server: the table `allVals(id integer PRIMARY KEY, vals text)`
    seen as a finite map from line index to line text, and the loader that fills it
    from a text source, one line per row. */
module LineStore {
  import opened JavaLang

  /** The table after `INSERT INTO allVals(id, vals) VALUES(id, v)`. `id` is the primary
      key, so inserting an id that is already present violates the constraint; the
      SQLException is logged and swallowed and the table keeps its old row. */
  function InsertRecord(t: map<int, string>, id: int, v: string): (r: map<int, string>)
    ensures r.Keys == t.Keys + {id}
    ensures forall k :: k in t ==> r[k] == t[k]
    ensures id !in t ==> r[id] == v
  {
    if id in t then t else t[id := v]
  }

  /** `SELECT vals FROM allVals WHERE id = lineNum`, then `next()` and `getString("vals")`:
      with no matching row `getString` throws, the exception is swallowed and "" is
      returned instead. */
  function LineContent(t: map<int, string>, lineNum: int): (r: string)
    ensures lineNum in t ==> r == t[lineNum]
    ensures r != "" ==> lineNum in t
  {
    if lineNum in t then t[lineNum] else ""
  }

  /** The table the loader is meant to build: line k of the source under id k. */
  function Dense(lines: seq<string>): (m: map<int, string>)
    ensures forall k :: k in m <==> 0 <= k < |lines|
    ensures forall k :: 0 <= k < |lines| ==> m[k] == lines[k]
  {
    map k | 0 <= k < |lines| :: lines[k]
  }

  /** The table after the loader as written has inserted every line of `lines` into `t`:
      its counter is a Java `int`, so line k goes in under id WrapInt(k). */
  function LoadedAsWritten(t: map<int, string>, lines: seq<string>): (r: map<int, string>)
    ensures forall k :: k in t ==> k in r && r[k] == t[k]
    ensures forall j :: 0 <= j < |lines| ==> WrapInt(j) in r
    decreases |lines|
  {
    if lines == [] then t
    else InsertRecord(LoadedAsWritten(t, lines[..|lines| - 1]), WrapInt(|lines| - 1), lines[|lines| - 1])
  }

  /** Inserting line |lines| under the next free id extends the dense part by that line;
      a row the table already held under that id wins. */
  lemma InsertNextLine(t: map<int, string>, lines: seq<string>, line: string)
    ensures InsertRecord(Dense(lines) + t, |lines|, line) == Dense(lines + [line]) + t
  {
  }

  /** While fewer than 2^31 lines have been read, the `int` counter does not wrap and the
      loader as written puts line k under id k; rows already in the table win. */
  lemma {:induction false} LoadedAsWrittenBelowWrap(t: map<int, string>, lines: seq<string>)
    requires |lines| <= MaxInt + 1
    ensures LoadedAsWritten(t, lines) == Dense(lines) + t
    decreases |lines|
  {
    if lines == [] {
      assert Dense(lines) == map[];
      assert map[] + t == t;
    } else {
      var init := lines[..|lines| - 1];
      var last := lines[|lines| - 1];
      var id := WrapInt(|init|);
      assert id == |init|;
      assert LoadedAsWritten(t, lines) == InsertRecord(LoadedAsWritten(t, init), id, last);
      LoadedAsWrittenBelowWrap(t, init);
      InsertNextLine(t, init, last);
      assert init + [last] == lines;
    }
  }

  /** Read back after a load into an empty table: index i yields line i for every
      0 <= i < |lines|, and "" for every other index. */
  lemma ContentAfterLoad(lines: seq<string>, i: int)
    ensures 0 <= i < |lines| ==> LineContent(Dense(lines), i) == lines[i]
    ensures !(0 <= i < |lines|) ==> LineContent(Dense(lines), i) == ""
  {
  }

  /** A table left over from an earlier run that was not discarded shadows the new
      source: its rows win over the lines loaded under the same ids. */
  lemma StaleRowsWin(t: map<int, string>, lines: seq<string>, i: int)
    requires i in t
    ensures LineContent(Dense(lines) + t, i) == t[i]
  {
  }

  /** With exactly 2^31 lines every row is still filed under its own index, but the
      `int` counter returned as the line count has wrapped to Integer.MIN_VALUE. */
  lemma AsWrittenCountWraps(lines: seq<string>)
    requires |lines| == MaxInt + 1
    ensures WrapInt(|lines|) == MinInt
    ensures LoadedAsWritten(map[], lines) == Dense(lines)
  {
    LoadedAsWrittenBelowWrap(map[], lines);
    assert Dense(lines) + map[] == Dense(lines);
  }

  /** The source handed to the loader, already split into lines; `NextLine(source, pos)`
      is `reader.readLine()` when `pos` lines have already been read: the next line, or
      None (Java's null) at end of input. */
  function NextLine(source: seq<string>, pos: nat): (r: Option<string>)
    requires pos <= |source|
    ensures r.Some? <==> pos < |source|
    ensures pos < |source| ==> r.value == source[pos]
  {
    if pos < |source| then Some(source[pos]) else None
  }

  /** One SQLite database file with its `allVals` table. */
  class Database {
    /** The rows of `allVals`: id |-> vals. */
    var table: map<int, string>

    /** A connection to a newly created database file (the server deletes the old file
        first) on which `CREATE TABLE IF NOT EXISTS allVals` has run: no rows yet. */
    constructor ()
      ensures table == map[]
    {
      table := map[];
    }

    /** insertRecordsInTable: add the row (lineNum, valToAdd) unless lineNum is taken. */
    method InsertRecordsInTable(lineNum: int64, valToAdd: string)
      modifies this
      ensures table == InsertRecord(old(table), lineNum, valToAdd)
      ensures lineNum in old(table) ==> table == old(table)
      ensures lineNum !in old(table) ==> table == old(table)[lineNum := valToAdd]
    {
      table := InsertRecord(table, lineNum, valToAdd);
    }

    /** getLineContent: the stored text of row lineNum, or "" when there is no such row. */
    method GetLineContent(lineNum: int64) returns (content: string)
      ensures lineNum in table ==> content == table[lineNum]
      ensures lineNum !in table ==> content == ""
      ensures content == LineContent(table, lineNum)
    {
      if lineNum in table {
        content := table[lineNum];   // queryRes.next() found the row
      } else {
        content := "";               // no row: getString threw, the exception was swallowed
      }
    }

    /** prepareDatabase as written: read the source line by line, insert line k under the
        value of an `int` counter, increment it, and return the counter. */
    method PrepareDatabase(source: seq<string>) returns (numOfLines: int32)
      modifies this
      ensures numOfLines == WrapInt(|source|)
      ensures table == LoadedAsWritten(old(table), source)
      ensures |source| <= MaxInt ==> numOfLines == |source|
      ensures |source| <= MaxInt ==> table == Dense(source) + old(table)
    {
      numOfLines := 0;
      var pos := 0;
      var lineText := NextLine(source, pos);
      while lineText.Some?
        invariant 0 <= pos <= |source|
        invariant lineText == NextLine(source, pos)
        invariant numOfLines == WrapInt(pos)
        invariant table == LoadedAsWritten(old(table), source[..pos])
        decreases |source| - pos
      {
        assert source[..pos + 1][..pos] == source[..pos];
        InsertRecordsInTable(numOfLines, lineText.value);
        WrapIntSucc(pos);
        numOfLines := WrapInt(numOfLines + 1);
        pos := pos + 1;
        lineText := NextLine(source, pos);
      }
      assert source[..pos] == source;
      if |source| <= MaxInt {
        LoadedAsWrittenBelowWrap(old(table), source);
      }
    }

    /** prepareDatabase with the line counter widened to `long`, the type the server and
        both table operations use for line numbers. A Java file holds at most
        Long.MAX_VALUE bytes and every line takes at least one, so the counter cannot wrap.
        In an empty table the ids are then exactly 0 .. numOfLines - 1, row k holding
        line k verbatim. */
    method PrepareDatabaseWithLongCount(source: seq<string>) returns (numOfLines: int64)
      requires |source| <= MaxLong
      modifies this
      ensures numOfLines == |source|
      ensures table == Dense(source) + old(table)
      ensures old(table) == map[] ==> forall k :: k in table <==> 0 <= k < numOfLines
      ensures old(table) == map[] ==> forall k :: 0 <= k < numOfLines ==> table[k] == source[k]
    {
      numOfLines := 0;
      var lineText := NextLine(source, numOfLines);
      while lineText.Some?
        invariant 0 <= numOfLines <= |source|
        invariant lineText == NextLine(source, numOfLines)
        invariant table == Dense(source[..numOfLines]) + old(table)
        decreases |source| - numOfLines
      {
        assert source[..numOfLines + 1] == source[..numOfLines] + [lineText.value];
        InsertNextLine(old(table), source[..numOfLines], lineText.value);
        InsertRecordsInTable(numOfLines, lineText.value);
        numOfLines := numOfLines + 1;
        lineText := NextLine(source, numOfLines);
      }
      assert source[..numOfLines] == source;
      assert old(table) == map[] ==> table == Dense(source);
    }
  }
}
