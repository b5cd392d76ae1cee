/**
 * JSON values as Python's `json` module produces and consumes them. The
 * grammar and the exact output format of `json.loads`/`json.dumps` are not
 * modelled: parsing and serialising are passed in as functions, and the only
 * thing assumed of the serialiser is what `json.dumps` guarantees with its
 * default arguments, namely that a raw newline never appears in its output
 * (a newline inside a string value is written as the escape `\n`).
 */
module JsonValue {
  import opened Wrappers

  datatype Json =
    | JNull
    | JBool(b: bool)
    | JNumber(literal: string)
    | JString(s: string)
    | JArray(items: seq<Json>)
    | JObject(fields: map<string, Json>)

  /** What `json.loads` reports when the text is not exactly one JSON document. */
  datatype DecodeError = DecodeError(message: string)

  type Parser = string -> Result<Json, DecodeError>
  type Serialiser = Json -> string

  /** `json.dumps` writes every value on a single line and never writes an empty text. */
  ghost predicate SingleLine(dumps: Serialiser)
  {
    forall v :: dumps(v) != "" && '\n' !in dumps(v)
  }

  /** Parsing the serialisation of a value gives the value back. */
  ghost predicate RoundTrips(parse: Parser, dumps: Serialiser)
  {
    forall v :: parse(dumps(v)) == Success(v)
  }

  /** `[json.dumps(record) for record in data]`. */
  function SerialiseAll(items: seq<Json>, dumps: Serialiser): (lines: seq<string>)
    ensures |lines| == |items|
    ensures forall i :: 0 <= i < |items| ==> lines[i] == dumps(items[i])
  {
    if |items| == 0 then [] else [dumps(items[0])] + SerialiseAll(items[1..], dumps)
  }

  /** Parses every line in turn; the first line that does not parse stops it. */
  function ParseAll(lines: seq<string>, parse: Parser): Result<seq<Json>, DecodeError>
  {
    if |lines| == 0 then Success([])
    else
      match parse(lines[0])
      case Failure(e) => Failure(e)
      case Success(v) =>
        match ParseAll(lines[1..], parse)
        case Failure(e) => Failure(e)
        case Success(vs) => Success([v] + vs)
  }

  /** Parsing each serialised record gives the records back in their original order. */
  lemma {:induction false} ParseAllSerialised(items: seq<Json>, parse: Parser, dumps: Serialiser)
    requires RoundTrips(parse, dumps)
    ensures ParseAll(SerialiseAll(items, dumps), parse) == Success(items)
  {
    if |items| > 0 {
      ParseAllSerialised(items[1..], parse, dumps);
      assert parse(dumps(items[0])) == Success(items[0]);
      assert SerialiseAll(items, dumps)[1..] == SerialiseAll(items[1..], dumps);
      assert [items[0]] + items[1..] == items;
    }
  }
}
