/** The request side of the server: the handler registered for the `/lines/` context
    turns the rest of the request path into a line number and answers 400, 413 or 200
    with the stored line. */
module LineServer {
  import opened JavaLang
  import opened LineStore

  /** The context path the handler is registered under. */
  const LinesContext: string := "/lines/"

  const BadRequestBody: string := "<h1>400 Bad Request</h1>"
  const TooLargeBody: string := "<h1>413 Payload Too Large</h1>"

  /** What handleLines decides for one request. */
  datatype Outcome = BadRequest | TooLarge | Ok(content: string)

  /** `path.substring(base.length())`: the request path with the context path removed.
      The HTTP server only hands the handler paths that start with its context path. */
  function IndexText(path: string, base: string): (endPart: string)
    requires base <= path
    ensures base + endPart == path
  {
    path[|base|..]
  }

  /** The decision of handleLines for the index text `endPart`, the `long` line count
      `numOfLines` and the table `t`: 400 when parseLong throws or the value is negative,
      else 413 when the value is greater than `numOfLines - 1` (a `long` subtraction),
      else 200 with getLineContent of the value. */
  function Classify(endPart: string, numOfLines: int64, t: map<int, string>): (r: Outcome)
    ensures r.BadRequest? <==> ParseLong(endPart).None? || ParseLong(endPart).value < 0
    ensures MinLong < numOfLines ==>
      (r.TooLarge? <==> ParseLong(endPart).Some? && 0 <= ParseLong(endPart).value && numOfLines <= ParseLong(endPart).value)
    ensures r.Ok? <==>
      ParseLong(endPart).Some? && 0 <= ParseLong(endPart).value &&
      (numOfLines == MinLong || ParseLong(endPart).value < numOfLines)
    ensures r.Ok? ==> r.content == LineContent(t, ParseLong(endPart).value)
  {
    var parsed := ParseLong(endPart);
    var isValid := parsed.Some?;
    var lineNum := if isValid then parsed.value else 0;
    if !isValid || lineNum < 0 then BadRequest
    else if lineNum > WrapLong(numOfLines - 1) then TooLarge
    else Ok(LineContent(t, lineNum))
  }

  /** The status code sent with `sendResponseHeaders` for an outcome. */
  function StatusCode(o: Outcome): (code: int)
    ensures 200 <= code < 300 <==> o.Ok?
    ensures !o.Ok? ==> 400 <= code < 500
  {
    match o
    case BadRequest => 400
    case TooLarge => 413
    case Ok(_) => 200
  }

  /** The text written to the response body for an outcome: the line verbatim for 200,
      a short HTML heading for 400 and 413. */
  function ResponseBody(o: Outcome): (body: string)
    ensures o.Ok? ==> body == o.content
    ensures !o.Ok? ==> "<h1>" <= body
  {
    match o
    case BadRequest => BadRequestBody
    case TooLarge => TooLargeBody
    case Ok(content) => content
  }

  /** The status code alone tells the three outcomes apart. */
  lemma StatusCodeIdentifiesOutcome(o: Outcome)
    ensures StatusCode(o) == 400 <==> o.BadRequest?
    ensures StatusCode(o) == 413 <==> o.TooLarge?
    ensures StatusCode(o) == 200 <==> o.Ok?
  {
  }

  /** End to end: once the source `lines` is loaded, a request for the decimal text of
      any index i with 0 <= i < |lines| is answered with line i verbatim. */
  lemma RequestForLoadedLine(lines: seq<string>, i: int64)
    requires 0 <= i < |lines| <= MaxLong
    ensures Classify(IndexText(LinesContext + LongToString(i), LinesContext), |lines|, Dense(lines)) == Ok(lines[i])
  {
    var path := LinesContext + LongToString(i);
    assert path[|LinesContext|..] == LongToString(i);
    ParseLongToString(i);
    ContentAfterLoad(lines, i);
  }

  /** A request for the count itself or anything larger gets 413. */
  lemma RequestPastEnd(lines: seq<string>, i: int64, t: map<int, string>)
    requires 0 <= |lines| <= i
    ensures Classify(LongToString(i), |lines|, t) == TooLarge
  {
    ParseLongToString(i);
  }

  /** A negative line number gets 400 whatever the line count: the 400 test comes first. */
  lemma NegativeIsBadRequest(i: int64, numOfLines: int64, t: map<int, string>)
    requires i < 0
    ensures Classify(LongToString(i), numOfLines, t) == BadRequest
  {
    ParseLongToString(i);
  }

  /** With nothing loaded, every index that parses and is not negative gets 413. */
  lemma EmptySourceAllTooLarge(endPart: string, t: map<int, string>)
    requires ParseLong(endPart).Some? && ParseLong(endPart).value >= 0
    ensures Classify(endPart, 0, t) == TooLarge
  {
  }

  /** Request texts that parseLong accepts although they are not the plain decimal form
      of a line number: a '+' sign, "-0" and leading zeros. */
  lemma SignedAndPaddedIndices(lines: seq<string>)
    requires |lines| == 3
    ensures Classify("+1", 3, Dense(lines)) == Ok(lines[1])
    ensures Classify("-0", 3, Dense(lines)) == Ok(lines[0])
    ensures Classify("02", 3, Dense(lines)) == Ok(lines[2])
  {
    assert "+1"[1..] == "1";
    assert "-0"[1..] == "0";
    assert DigitsValue("02") == DigitsValue("0") * 10 + 2;
  }

  /** Index texts parseLong rejects get 400: the empty text (a request for `/lines/`
      itself), a number followed by a slash, and letters. */
  lemma MalformedIndices(numOfLines: int64, t: map<int, string>)
    ensures Classify("", numOfLines, t) == BadRequest
    ensures Classify("1/", numOfLines, t) == BadRequest
    ensures Classify("abc", numOfLines, t) == BadRequest
  {
  }

  /** The source ["apple", "banana", "cherry"]. */
  lemma FruitScenario()
    ensures Classify("1", 3, Dense(["apple", "banana", "cherry"])) == Ok("banana")
    ensures Classify("10", 3, Dense(["apple", "banana", "cherry"])) == TooLarge
    ensures Classify("-1", 3, Dense(["apple", "banana", "cherry"])) == BadRequest
    ensures Classify("0", 0, Dense([])) == TooLarge
  {
  }

  /** The loader as written on a source of exactly 2^31 lines: the table is complete,
      but the count it returns has wrapped to Integer.MIN_VALUE, so every loaded line is
      answered with 413. */
  lemma AsWrittenServerRejectsLoadedLines(lines: seq<string>, i: int64)
    requires |lines| == MaxInt + 1
    requires 0 <= i < |lines|
    ensures Classify(LongToString(i), WrapInt(|lines|), LoadedAsWritten(map[], lines)) == TooLarge
  {
    AsWrittenCountWraps(lines);
    ParseLongToString(i);
  }

  /** The server after start-up: the line count and the database it went into. */
  class LightLineServer {
    const numOfLines: int64
    const store: Database

    /** Load the source into a new database file and keep the line count. The loader
        used is the one with the `long` counter. */
    constructor (source: seq<string>)
      requires |source| <= MaxLong
      ensures fresh(store)
      ensures numOfLines == |source|
      ensures store.table == Dense(source)
    {
      var db := new Database();
      var n := db.PrepareDatabaseWithLongCount(source);
      assert Dense(source) + map[] == Dense(source);
      store := db;
      numOfLines := n;
    }

    /** handleLines for a request whose path is `path`: the status code and the body
        written back. Nothing is modified, so `numOfLines` and the table stay as loaded. */
    method HandleLines(path: string) returns (status: int, response: string)
      requires LinesContext <= path
      ensures status == StatusCode(Classify(IndexText(path, LinesContext), numOfLines, store.table))
      ensures response == ResponseBody(Classify(IndexText(path, LinesContext), numOfLines, store.table))
    {
      var endPart := path[|LinesContext|..];
      var isValid := true;
      var lineNum: int64 := 0;
      var parsed := ParseLong(endPart);
      if parsed.Some? {
        lineNum := parsed.value;
      } else {
        isValid := false;
      }
      if !isValid || lineNum < 0 {
        status, response := 400, BadRequestBody;
      } else if lineNum > WrapLong(numOfLines - 1) {
        status, response := 413, TooLargeBody;
      } else {
        status := 200;
        response := store.GetLineContent(lineNum);
      }
    }
  }
}
