/**
 * Reading the workgroup name and the region out of a serverless warehouse
 * endpoint such as "my-wg.123456789012.us-east-1.redshift-serverless.amazonaws.com"
 * (app.py, lines 31-33): the endpoint is split on '.', the workgroup is the
 * first part and the region the third. With fewer than two dots, `parts[2]`
 * raises IndexError and the job stops before anything else runs.
 */
module Endpoint {
  import opened Wrappers
  import opened Text

  datatype Target = Target(workgroup: string, region: string)

  /** `parts[2]` was out of range: the endpoint split into only `parts` pieces. */
  datatype EndpointError = RegionMissing(parts: nat)

  function ParseEndpoint(endpoint: string): (r: Result<Target, EndpointError>)
    ensures r.Success? <==> Occurrences(endpoint, '.') >= 2
    ensures r.Failure? ==> r.error == RegionMissing(Occurrences(endpoint, '.') + 1)
    ensures r.Success? ==> '.' !in r.value.workgroup && '.' !in r.value.region
    ensures r.Success? ==>
      exists middle, rest :: Layout(endpoint, r.value.workgroup, middle, r.value.region, rest)
  {
    var parts := SplitOn(endpoint, '.');
    SplitCount(endpoint, '.');
    if |parts| < 3 then Failure(RegionMissing(|parts|))
    else
      JoinSplit(endpoint, '.');
      JoinFirstThree(parts, '.');
      var rest := if |parts| == 3 then "" else "." + JoinWith(parts[3..], '.');
      assert Layout(endpoint, parts[0], parts[1], parts[2], rest);
      Success(Target(parts[0], parts[2]))
  }

  /**
   * `endpoint` reads: the workgroup, a dot, a dot-free middle segment, a dot,
   * the region, then either nothing or further dot-led segments.
   */
  ghost predicate Layout(endpoint: string, workgroup: string, middle: string, region: string, rest: string)
  {
    && '.' !in middle
    && (rest == "" || rest[0] == '.')
    && endpoint == workgroup + "." + middle + "." + region + rest
  }

  lemma Regroup(a: string, d: string, b: string, c: string, e: string)
    ensures a + d + (b + d + (c + e)) == a + d + b + d + c + e
  {
    assert b + d + (c + e) == b + d + c + e;
    assert a + d + (b + d + c + e) == a + d + b + d + c + e;
  }

  /** A join of two or more parts is the first part, a separator, and the join of the others. */
  lemma JoinCons(parts: seq<string>, sep: char)
    requires |parts| >= 2
    ensures JoinWith(parts, sep) == parts[0] + [sep] + JoinWith(parts[1..], sep)
  {
  }

  /** A join of three or more parts starts with the first three, separated, then the rest. */
  lemma JoinFirstThree(parts: seq<string>, sep: char)
    requires |parts| >= 3
    ensures var rest := if |parts| == 3 then "" else [sep] + JoinWith(parts[3..], sep);
      JoinWith(parts, sep) == parts[0] + [sep] + parts[1] + [sep] + parts[2] + rest
  {
    var tail1, tail2 := parts[1..], parts[2..];
    var rest := if |parts| == 3 then "" else [sep] + JoinWith(parts[3..], sep);
    assert tail1[0] == parts[1] && tail1[1..] == tail2;
    assert tail2[0] == parts[2];
    JoinCons(parts, sep);
    JoinCons(tail1, sep);
    if |parts| == 3 {
      assert JoinWith(tail2, sep) == parts[2] + rest;
    } else {
      assert tail2[1..] == parts[3..];
      JoinCons(tail2, sep);
    }
    Regroup(parts[0], [sep], parts[1], parts[2], rest);
  }
}
