/**
 * The input-format check that runs before the load (app.py, lines 40-74).
 * The source object is read from the store and parsed as one JSON document.
 * A JSON array is rewritten as newline-delimited JSON (NDJSON) under the
 * "processed/" prefix, and that copy becomes the load source. Any other JSON
 * value, and any text that does not parse, leaves the original object as
 * the load source. A parse failure is not an error: the text is assumed to
 * be NDJSON already.
 */
module Normaliser {
  import opened Wrappers
  import opened Text
  import opened JsonValue

  /** A bucket/key pair naming one object in the object store. */
  datatype ObjectRef = ObjectRef(bucket: string, key: string)

  /** The object store's contents, as text (the body decoded as UTF-8). */
  type ObjectStore = map<ObjectRef, string>

  /** One `put_object` call. */
  datatype Put = Put(target: ObjectRef, body: string)

  /** Which of the three branches the input took. */
  datatype Format = JsonArray | JsonNotArray | AssumedNdjson

  datatype Normalised = Normalised(format: Format, loadFrom: ObjectRef, puts: seq<Put>)

  /** `get_object` failed: the error is re-raised and the job stops. */
  datatype ReadError = NoSuchObject(source: ObjectRef)

  const ProcessedPrefix: string := "processed/"

  /** `f"s3://{bucket}/{key}"` */
  function S3Uri(r: ObjectRef): string
  {
    "s3://" + r.bucket + "/" + r.key
  }

  /** Where the NDJSON copy of `source` is written: same bucket, key prefixed with "processed/". */
  function ProcessedRef(source: ObjectRef): (r: ObjectRef)
    ensures r.bucket == source.bucket && r != source
  {
    ObjectRef(source.bucket, ProcessedPrefix + source.key)
  }

  /** `'\n'.join([json.dumps(record) for record in data])` */
  function ToNdjson(items: seq<Json>, dumps: Serialiser): string
  {
    JoinWith(SerialiseAll(items, dumps), '\n')
  }

  /** Which branch `json.loads` sends the content down. */
  function Classify(parsed: Result<Json, DecodeError>): (f: Format)
    ensures f == JsonArray <==> parsed.Success? && parsed.value.JArray?
    ensures f == AssumedNdjson <==> parsed.Failure?
  {
    match parsed
    case Failure(_) => AssumedNdjson
    case Success(JArray(_)) => JsonArray
    case Success(_) => JsonNotArray
  }

  /** Reads the source object and decides the load source, app.py lines 40-74. */
  function Normalise(store: ObjectStore, source: ObjectRef, parse: Parser, dumps: Serialiser)
    : (r: Result<Normalised, ReadError>)
    ensures r.Failure? <==> source !in store
    ensures r.Failure? ==> r.error == NoSuchObject(source)
    ensures r.Success? ==> r.value.format == Classify(parse(store[source]))
    ensures r.Success? && r.value.format == JsonArray ==>
      && r.value.loadFrom == ProcessedRef(source)
      && r.value.puts == [Put(ProcessedRef(source), ToNdjson(parse(store[source]).value.items, dumps))]
    ensures r.Success? && r.value.format != JsonArray ==>
      r.value.loadFrom == source && r.value.puts == []
  {
    if source !in store then Failure(NoSuchObject(source))
    else
      var parsed := parse(store[source]);
      match parsed
      case Failure(_) =>
        Success(Normalised(AssumedNdjson, source, []))
      case Success(data) =>
        if data.JArray? then
          var processed := ProcessedRef(source);
          Success(Normalised(JsonArray, processed, [Put(processed, ToNdjson(data.items, dumps))]))
        else
          Success(Normalised(JsonNotArray, source, []))
  }

  /** The objects the puts write to. */
  function Targets(puts: seq<Put>): set<ObjectRef>
  {
    if |puts| == 0 then {} else {puts[0].target} + Targets(puts[1..])
  }

  /** The store after the puts, in order: a later put to the same object wins. */
  function ApplyPuts(store: ObjectStore, puts: seq<Put>): (s: ObjectStore)
    ensures s.Keys == store.Keys + Targets(puts)
    ensures forall r :: r in store && r !in Targets(puts) ==> s[r] == store[r]
    ensures |puts| > 0 ==> puts[|puts| - 1].target in s && s[puts[|puts| - 1].target] == puts[|puts| - 1].body
    decreases |puts|
  {
    if |puts| == 0 then store
    else
      assert |puts| > 1 ==> puts[|puts| - 1] == puts[1..][|puts| - 2];
      ApplyPuts(store[puts[0].target := puts[0].body], puts[1..])
  }

  /**
   * After a successful normalisation the load source exists in the store, the
   * source object itself is never overwritten, and at most one other object
   * (the processed copy) changes.
   */
  lemma LoadSourceExists(store: ObjectStore, source: ObjectRef, parse: Parser, dumps: Serialiser)
    requires Normalise(store, source, parse, dumps).Success?
    ensures var n := Normalise(store, source, parse, dumps).value;
      var after := ApplyPuts(store, n.puts);
      && n.loadFrom in after
      && after[source] == store[source]
      && (forall r :: r in store && r != ProcessedRef(source) ==> r in after && after[r] == store[r])
      && (n.format != JsonArray ==> after == store)
  {
    var n := Normalise(store, source, parse, dumps).value;
    if n.format == JsonArray {
      assert n.puts[1..] == [];
    }
  }

  /**
   * In the array branch, the object the load reads holds one line per array
   * element, in order: splitting it on newlines gives exactly the elements'
   * serialisations, and there is one newline fewer than there are elements.
   */
  lemma ArrayBranchLines(store: ObjectStore, source: ObjectRef, parse: Parser, dumps: Serialiser)
    requires SingleLine(dumps)
    requires source in store && parse(store[source]).Success? && parse(store[source]).value.JArray?
    requires |parse(store[source]).value.items| > 0
    ensures var n := Normalise(store, source, parse, dumps).value;
      var items := parse(store[source]).value.items;
      var body := ApplyPuts(store, n.puts)[n.loadFrom];
      && SplitOn(body, '\n') == SerialiseAll(items, dumps)
      && Occurrences(body, '\n') == |items| - 1
      && body[|body| - 1] != '\n'
  {
    var items := parse(store[source]).value.items;
    ArrayBranchBody(store, source, parse, dumps);
    NdjsonLines(items, dumps);
  }

  /** In the array branch the load source holds the NDJSON rewriting of the array. */
  lemma ArrayBranchBody(store: ObjectStore, source: ObjectRef, parse: Parser, dumps: Serialiser)
    requires source in store && parse(store[source]).Success? && parse(store[source]).value.JArray?
    ensures var n := Normalise(store, source, parse, dumps).value;
      ApplyPuts(store, n.puts)[n.loadFrom] == ToNdjson(parse(store[source]).value.items, dumps)
  {
    var n := Normalise(store, source, parse, dumps).value;
    assert n.puts[1..] == [];
  }

  /** The NDJSON text of a non-empty array: its lines are the serialisations, with no trailing newline. */
  lemma NdjsonLines(items: seq<Json>, dumps: Serialiser)
    requires SingleLine(dumps) && |items| > 0
    ensures var body := ToNdjson(items, dumps);
      && SplitOn(body, '\n') == SerialiseAll(items, dumps)
      && Occurrences(body, '\n') == |items| - 1
      && body[|body| - 1] != '\n'
  {
    var lines := SerialiseAll(items, dumps);
    forall i | 0 <= i < |lines| ensures '\n' !in lines[i] {
      assert lines[i] == dumps(items[i]);
    }
    SplitJoin(lines, '\n');
    JoinCount(lines, '\n');
    assert lines[|lines| - 1] == dumps(items[|items| - 1]);
    JoinEndsWithLast(lines, '\n');
  }

  /** A join ends with its last part. */
  lemma {:induction false} JoinEndsWithLast(parts: seq<string>, sep: char)
    requires |parts| >= 1 && parts[|parts| - 1] != ""
    ensures var j := JoinWith(parts, sep);
      |j| >= |parts[|parts| - 1]| && j[|j| - 1] == parts[|parts| - 1][|parts[|parts| - 1]| - 1]
  {
    if |parts| > 1 {
      JoinEndsWithLast(parts[1..], sep);
    }
  }

  /**
   * The round trip of the array branch: when `json.loads` undoes
   * `json.dumps`, parsing the load source line by line gives back the
   * array's elements in their original order, nothing added or lost.
   */
  lemma ArrayBranchRoundTrip(store: ObjectStore, source: ObjectRef, parse: Parser, dumps: Serialiser)
    requires SingleLine(dumps) && RoundTrips(parse, dumps)
    requires source in store && parse(store[source]).Success? && parse(store[source]).value.JArray?
    requires |parse(store[source]).value.items| > 0
    ensures var n := Normalise(store, source, parse, dumps).value;
      var body := ApplyPuts(store, n.puts)[n.loadFrom];
      ParseAll(SplitOn(body, '\n'), parse) == Success(parse(store[source]).value.items)
  {
    ArrayBranchLines(store, source, parse, dumps);
    ParseAllSerialised(parse(store[source]).value.items, parse, dumps);
  }

  /** An empty JSON array is still rewritten: the processed copy is an empty object. */
  lemma EmptyArrayWritesEmptyCopy(store: ObjectStore, source: ObjectRef, parse: Parser, dumps: Serialiser)
    requires source in store && parse(store[source]) == Success(JArray([]))
    ensures Normalise(store, source, parse, dumps).value.puts == [Put(ProcessedRef(source), "")]
  {
  }
}
