# LightLineServer core in Dafny

LightLineServer serves single lines of a text file over HTTP. At start-up it loads the
file into a SQLite table `allVals(id integer PRIMARY KEY, vals text)`, one row per line,
with zero-based ids, and keeps the line count. A request `GET /lines/<n>` is then
answered with 400, 413 or 200 and, for 200, the stored line.

This project models that core:

- `java_lang.dfy`, module `JavaLang`: Java `int` and `long` as bounded integers with
  explicit two's-complement wrap-around; `Long.parseLong` (radix 10) as a function to
  `Option<int64>`; `Long.toString` as its inverse.
- `line_store.dfy`, module `LineStore` (`DatabaseAbstraction.java`): the `allVals` table
  is a `map<int, string>` field of class `Database`. The class has the insert with its
  primary-key conflict swallowed, the read that returns `""` for a missing row, and the
  loader loop over the source lines. The source is given as an already-split
  `seq<string>`. The loader is modelled twice: as written, with its `int` counter, and
  with a `long` counter (see Findings).
- `line_server.dfy`, module `LineServer` (`LightLineServer.java`): the decision of
  `handleLines` as the pure function `Classify` returning `BadRequest | TooLarge |
  Ok(content)`; class `LightLineServer` with a `const numOfLines` and the loaded
  database; and `HandleLines`, the step-by-step handler, proved equal to `Classify`.

Main results:
- A load into an empty table yields exactly the ids `0 .. |source|-1`, row k holding
  line k verbatim (`PrepareDatabaseWithLongCount`).
- In general the loaded table is `Dense(source) + old table`. Rows already present win,
  because a duplicate primary key is swallowed.
- `parseLong(toString(i)) == i` for every `long` i.
- End to end: a request for the decimal text of any `0 <= i < |L|` is answered
  `Ok(L[i])`. At or past the count the answer is 413. Negative or unparseable input
  gets 400.

`numOfLines` is a `const` field and `HandleLines` has no `modifies` clause, so handling
a request changes neither the count nor the table. `Classify` is a function, so
repeated requests for the same index get the same answer.

Behaviour of the code that the model keeps as it is:
- A missing row reads as `""`. The code has no not-found and no store-failure outcome.
- A duplicate insert is silently dropped.
- The index text is whatever `Long.parseLong` accepts. So `+1`, `-0` and `007` are
  served as lines 1, 0 and 7, and the 400 test is on the parsed value being negative.

## Model

| member | source | states |
|---|---|---|
| JavaLang.WrapInt | src/main/java/kayomars/DatabaseAbstraction.java:123 | the result is a Java `int` congruent to the input modulo 2^32, and equal to it when the input is in range |
| JavaLang.WrapLong | src/main/java/kayomars/LightLineServer.java:114 | the result is a Java `long` congruent to the input modulo 2^64, and equal to it when the input is in range |
| JavaLang.WrapIntSucc | src/main/java/kayomars/DatabaseAbstraction.java:133 | incrementing the wrapped count k gives the wrapped count k+1, so the `int` counter of `numOfLines++` always holds the number of lines read, wrapped |
| JavaLang.ParseLong | src/main/java/kayomars/LightLineServer.java:101-105 | an accepted text is non-empty, ends in a digit, has only digits after an optional leading `+`/`-`, and gives a negative value only with a leading `-` |
| JavaLang.LongToString | src/main/java/kayomars/DatabaseAbstraction.java:96 | `String.valueOf(long)` gives canonical decimal text: a `-` exactly for negative values and no leading zero except in `0` |
| JavaLang.ParseLongToString | src/main/java/kayomars/LightLineServer.java:102 | round trip: parseLong reads back every `long` that toString writes |
| JavaLang.LeadingZeroIgnored | src/main/java/kayomars/LightLineServer.java:102 | a leading `0` does not change a digit string's value |
| JavaLang.ParseLongLeadingZero | src/main/java/kayomars/LightLineServer.java:101-105 | a leading `0` before a digit string does not change what parseLong returns, so `007` reads as 7 |
| JavaLang.ParseLongDigits | src/main/java/kayomars/LightLineServer.java:101-105 | a plain digit string that fits a `long` parses to its decimal value |
| JavaLang.ParseLongMinus | src/main/java/kayomars/LightLineServer.java:101-105 | a `-` followed by digits whose value is at most 2^63 parses to the negated value, Long.MIN_VALUE included |
| JavaLang.ParseLongPlus | src/main/java/kayomars/LightLineServer.java:101-105 | a leading `+` is accepted and does not change the result |
| JavaLang.ParseLongRejectsNonDigit | src/main/java/kayomars/LightLineServer.java:101-105 | any non-digit after the first character makes parseLong throw |
| JavaLang.ParseLongRejectsNoDigits | src/main/java/kayomars/LightLineServer.java:101-105 | the empty text and a lone sign are rejected |
| JavaLang.ParseLongRejectsOverflow | src/main/java/kayomars/LightLineServer.java:101-105 | digits whose value exceeds Long.MAX_VALUE are rejected, signed with `+` or not; after a `-` they are rejected once the value exceeds 2^63 |
| LineStore.InsertRecord | src/main/java/kayomars/DatabaseAbstraction.java:74-85 | an insert adds exactly the id to the key set, never changes an existing row, and stores the value under a fresh id |
| LineStore.LineContent | src/main/java/kayomars/DatabaseAbstraction.java:94-109 | the read of a row: the stored text when the id is present; a non-empty answer only comes from a stored row |
| LineStore.LoadedAsWritten | src/main/java/kayomars/DatabaseAbstraction.java:128-136 | the table the `int`-counter loop builds: every row already present is kept unchanged, and the wrapped index of every line read is a key |
| LineStore.Dense | src/main/java/kayomars/DatabaseAbstraction.java:116 | the intended table: keys exactly `0 .. n-1`, key k holding line k |
| LineStore.InsertNextLine | src/main/java/kayomars/DatabaseAbstraction.java:132-133 | inserting line n under id n extends the dense table by that line; an old row under id n wins |
| LineStore.LoadedAsWrittenBelowWrap | src/main/java/kayomars/DatabaseAbstraction.java:123-136 | below 2^31 lines the `int`-counter loader files line k under id k, i.e. gives `Dense(lines) + t` |
| LineStore.ContentAfterLoad | src/main/java/kayomars/DatabaseAbstraction.java:98-109 | on the table that a load into an empty table builds, reading index i gives line i for `0 <= i < n` and `""` for every other index |
| LineStore.StaleRowsWin | src/main/java/kayomars/DatabaseAbstraction.java:78-85 | a row already in the table before the load is what a later read returns |
| LineStore.AsWrittenCountWraps | src/main/java/kayomars/DatabaseAbstraction.java:123-140 | with exactly 2^31 lines the table is complete but the returned `int` count is Integer.MIN_VALUE |
| LineStore.NextLine | src/main/java/kayomars/DatabaseAbstraction.java:128-135 | `readLine` gives the next line while lines remain and null (None) at end of input |
| LineStore.Database.constructor | src/main/java/kayomars/DatabaseAbstraction.java:52-67 | a new database file with its `allVals` table created has no rows |
| LineStore.Database.InsertRecordsInTable | src/main/java/kayomars/DatabaseAbstraction.java:74-86 | a fresh id adds exactly that row; a taken id leaves the table unchanged |
| LineStore.Database.GetLineContent | src/main/java/kayomars/DatabaseAbstraction.java:94-110 | the stored text when the row exists, `""` when it does not |
| LineStore.Database.PrepareDatabase | src/main/java/kayomars/DatabaseAbstraction.java:120-142 | as written: returns the wrapped `int` count and files each line under its wrapped index; with fewer than 2^31 lines the count is exact and the table is `Dense(source) + old table` |
| LineStore.Database.PrepareDatabaseWithLongCount | src/main/java/kayomars/DatabaseAbstraction.java:120-142 | returns the number of lines read; the table becomes `Dense(source) + old table`; from an empty table the ids are exactly `0 .. count-1`, each row verbatim |
| LineServer.IndexText | src/main/java/kayomars/LightLineServer.java:93-95 | the index text is exactly the request path with the context path `/lines/` removed |
| LineServer.Classify | src/main/java/kayomars/LightLineServer.java:97-124 | 400 iff parseLong fails or the value is negative; otherwise 413 iff the value is at least `numOfLines`; otherwise 200 with getLineContent of the value (the wrapped `numOfLines - 1` is handled for Long.MIN_VALUE) |
| LineServer.StatusCode | src/main/java/kayomars/LightLineServer.java:111-118 | the status code sent is a 2xx code exactly for a found line and a 4xx code for both error outcomes |
| LineServer.ResponseBody | src/main/java/kayomars/LightLineServer.java:111-121 | a found line is written back verbatim; the 400 and 413 bodies are HTML headings |
| LineServer.StatusCodeIdentifiesOutcome | src/main/java/kayomars/LightLineServer.java:111-124 | the status codes 400, 413 and 200 correspond one-to-one to the three outcomes |
| LineServer.RequestForLoadedLine | src/main/java/kayomars/LightLineServer.java:111-122 | after loading L, a request for `/lines/` + toString(i) with `0 <= i < |L|` yields `Ok(L[i])` |
| LineServer.RequestPastEnd | src/main/java/kayomars/LightLineServer.java:114-116 | an index at or past the line count yields 413 |
| LineServer.NegativeIsBadRequest | src/main/java/kayomars/LightLineServer.java:111-113 | a negative index yields 400 for any line count, since the 400 test comes first |
| LineServer.EmptySourceAllTooLarge | src/main/java/kayomars/LightLineServer.java:114 | with `numOfLines = 0` every parseable non-negative index yields 413 |
| LineServer.SignedAndPaddedIndices | src/main/java/kayomars/LightLineServer.java:101-105 | `+1`, `-0` and `02` are served as lines 1, 0 and 2 |
| LineServer.MalformedIndices | src/main/java/kayomars/LightLineServer.java:111-113 | the empty text, `1/` and `abc` yield 400 |
| LineServer.FruitScenario | src/main/java/kayomars/LightLineServer.java:111-122 | for `["apple","banana","cherry"]`: `1` gives `banana`, `10` gives 413, `-1` gives 400; with no lines, `0` gives 413 |
| LineServer.AsWrittenServerRejectsLoadedLines | src/main/java/kayomars/LightLineServer.java:54 | with the `int`-counter loader and 2^31 lines, every loaded line is answered 413 |
| LineServer.LightLineServer.constructor | src/main/java/kayomars/LightLineServer.java:53-55 | after start-up, `numOfLines` is the number of source lines and the table is exactly `Dense(source)` |
| LineServer.LightLineServer.HandleLines | src/main/java/kayomars/LightLineServer.java:90-133 | the handler's status code and body are those of `Classify` on the path suffix, the line count and the table; nothing is modified |

## Findings

| source | as written | input that shows it | evidently intended | confidence | as-written member | corrected member |
|---|---|---|---|---|---|---|
| src/main/java/kayomars/DatabaseAbstraction.java:123-140 | the line counter of `prepareDatabase` is an `int`, incremented once per line and returned as the line count | a source of 2^31 lines: the count wraps to -2147483648, the server stores it in its `long numOfLines`, and every request for a loaded line is answered 413 | count in a `long`, the type the server field and both table operations already use for line numbers | not executed; the wrap is certain for such a source | LineServer.AsWrittenServerRejectsLoadedLines | LineStore.Database.PrepareDatabaseWithLongCount |

`LineStore.Database.PrepareDatabase` is the loader as written. `LightLineServer`'s
constructor uses the corrected one.

## Left out

- HTTP server creation, the `/lines/` context registration and the fixed pool of 100
  worker threads: network I/O and concurrency. A request is one call to `HandleLines`.
- Opening and closing a database connection per request, `closeConnection`, the JDBC
  driver and the SQL text. These are foreign calls. The table is a map, and its single
  `Database` object stands for the database file that every connection opens.
- Reading the file: `FileReader`, `BufferedReader.readLine` line terminators and
  `IOException`. The source is an already-split sequence of lines.
- `main`: argument parsing, the file-existence check and the fixed port 8080.
- Deleting the old database file at start-up. `LightLineServer.constructor` starts from
  an empty table. If the delete fails, the failure is swallowed and the old file is
  reused; `PrepareDatabase` and `StaleRowsWin` state what loading then gives
  (old rows win).
- `sendResponseHeaders` and writing the body with the US-ASCII encoder. The model
  returns the status code and the body text before encoding. Non-ASCII characters
  would become `?` on the wire.
- Percent-decoding of the request path by `getRequestURI().getPath()`. The model starts
  from the decoded path.
- Console logging of every swallowed exception.
- Failure of the connection or of `CREATE TABLE` themselves. SQLite errors other than
  the primary-key conflict and the missing row are not modelled.
- JavaLang.ParseLong: accepts only the ASCII digits `0`-`9`. Java's `Character.digit`
  also accepts the other Unicode decimal digits (Arabic-Indic, fullwidth, ...), which
  the real server would parse as numbers.
- LineStore.Database.PrepareDatabaseWithLongCount: requires at most Long.MAX_VALUE
  lines. A Java file is at most that many bytes, and each line takes at least one byte.
