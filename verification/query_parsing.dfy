/**
 * The request-token extraction of `KiteLogin.autoWebLogin`: the final browser URL's
 * query string is split at `&`, every segment is cut at its first `=`, both halves
 * are percent-decoded and put into a map in order, so a later key overwrites an
 * earlier one. This is a simplified reading of the
 * `application/x-www-form-urlencoded` parser of section 5.1 of the WHATWG URL
 * Standard: a segment without `=` is an error here, trailing empty segments are
 * dropped by `String.split`, and a leading empty segment is an error.
 *
 * `URLDecoder.decode` is not modelled: it is a parameter `decode`, whose `None`
 * stands for the `IllegalArgumentException` it throws on a malformed escape.
 */
module QueryParsing {
  import opened Wrappers
  import opened JavaStrings

  /** The unchecked exceptions the parse loop can raise. */
  datatype ParseError =
    | SegmentWithoutEquals(segment: string)  // `substring(0, -1)` throws
    | IllegalEscape(text: string)            // the decoder rejects `text`

  /** A decoder that leaves text without `%` and `+` as it is, as `URLDecoder` does. */
  ghost predicate DecodesPlainText(decode: string -> Option<string>)
  {
    forall s :: '%' !in s && '+' !in s ==> decode(s) == Some(s)
  }

  /** A segment cut at its first `=`: the key before it, the value (further `=` included) after it. */
  function CutPair(segment: string): (r: Option<(string, string)>)
    ensures r.None? <==> '=' !in segment
    ensures r.Some? ==> '=' !in r.value.0 && r.value.0 + "=" + r.value.1 == segment
  {
    var idx := IndexOf(segment, '=');
    if idx == -1 then None
    else
      assert segment == segment[..idx] + "=" + segment[idx + 1..];
      Some((segment[..idx], segment[idx + 1..]))
  }

  /** Cutting is the inverse of gluing a `=`-free key to any value. */
  lemma CutPairOfJoined(key: string, value: string)
    requires '=' !in key
    ensures CutPair(key + "=" + value) == Some((key, value))
  {
    var segment := key + "=" + value;
    assert segment == key + ("=" + value);
    IndexOfAppend(key, "=" + value, '=');
    assert segment[..|key|] == key;
    assert segment[|key| + 1..] == value;
  }

  /** One segment as the loop body treats it: cut, then decode the key, then the value. */
  function DecodeSegment(segment: string, decode: string -> Option<string>): Result<(string, string), ParseError>
  {
    match CutPair(segment)
    case None => Failure(SegmentWithoutEquals(segment))
    case Some((k, v)) =>
      match decode(k)
      case None => Failure(IllegalEscape(k))
      case Some(key) =>
        match decode(v)
        case None => Failure(IllegalEscape(v))
        case Some(value) => Success((key, value))
  }

  /** The decoded pairs of all segments, in order, or the error of the first segment that throws. */
  function DecodePairs(segments: seq<string>, decode: string -> Option<string>): (r: Result<seq<(string, string)>, ParseError>)
    ensures r.Success? ==> |r.value| == |segments|
  {
    if segments == [] then Success([])
    else
      match DecodePairs(segments[..|segments| - 1], decode)
      case Failure(e) => Failure(e)
      case Success(pairs) =>
        match DecodeSegment(segments[|segments| - 1], decode)
        case Failure(e) => Failure(e)
        case Success(p) => Success(pairs + [p])
  }

  /** The segments decode together exactly when each decodes, and then pair `i` is segment `i` decoded. */
  lemma {:induction false} DecodePairsEach(segments: seq<string>, decode: string -> Option<string>)
    ensures DecodePairs(segments, decode).Success? ==>
      forall i | 0 <= i < |segments| :: DecodeSegment(segments[i], decode) == Success(DecodePairs(segments, decode).value[i])
    ensures (forall i | 0 <= i < |segments| :: DecodeSegment(segments[i], decode).Success?) ==>
      DecodePairs(segments, decode).Success?
  {
    if segments != [] {
      var init := segments[..|segments| - 1];
      var last := segments[|segments| - 1];
      DecodePairsEach(init, decode);
      var r := DecodePairs(segments, decode);
      var before := DecodePairs(init, decode);
      var now := DecodeSegment(last, decode);
      if before.Success? && now.Success? {
        assert r == Success(before.value + [now.value]);
        forall i | 0 <= i < |segments|
          ensures DecodeSegment(segments[i], decode) == Success(r.value[i])
        {
          if i < |init| {
            assert segments[i] == init[i];
          }
        }
      } else if before.Failure? {
        assert forall j | 0 <= j < |init| :: init[j] == segments[j];
      }
    }
  }

  /** One more segment that decodes extends the pairs decoded so far by its pair. */
  lemma DecodePairsSnoc(segments: seq<string>, decode: string -> Option<string>, i: int, pair: (string, string))
    requires 0 <= i < |segments|
    requires DecodePairs(segments[..i], decode).Success?
    requires DecodeSegment(segments[i], decode) == Success(pair)
    ensures DecodePairs(segments[..i + 1], decode) == Success(DecodePairs(segments[..i], decode).value + [pair])
  {
    assert segments[..i + 1][..i] == segments[..i];
  }

  /** Conversely, segments that each decode to their pair decode together to those pairs. */
  lemma DecodePairsFromEach(segments: seq<string>, decode: string -> Option<string>, pairs: seq<(string, string)>)
    requires |pairs| == |segments|
    requires forall i | 0 <= i < |segments| :: DecodeSegment(segments[i], decode) == Success(pairs[i])
    ensures DecodePairs(segments, decode) == Success(pairs)
  {
    DecodePairsEach(segments, decode);
    var r := DecodePairs(segments, decode);
    assert r.Success? by {
      forall i | 0 <= i < |segments|
        ensures DecodeSegment(segments[i], decode).Success?
      {
        assert DecodeSegment(segments[i], decode) == Success(pairs[i]);
      }
    }
    forall i | 0 <= i < |segments|
      ensures r.value[i] == pairs[i]
    {
      assert DecodeSegment(segments[i], decode) == Success(r.value[i]);
    }
    assert |r.value| == |pairs|;
    assert r.value == pairs;
  }

  /** Once a segment throws, the segments after it make no difference. */
  lemma {:induction false} FirstFailureDecides(segments: seq<string>, decode: string -> Option<string>, i: int)
    requires 0 <= i < |segments|
    requires DecodePairs(segments[..i], decode).Success?
    requires DecodeSegment(segments[i], decode).Failure?
    ensures DecodePairs(segments, decode) == Failure(DecodeSegment(segments[i], decode).error)
  {
    var init := segments[..|segments| - 1];
    if i < |segments| - 1 {
      assert init[..i] == segments[..i];
      assert init[i] == segments[i];
      FirstFailureDecides(init, decode, i);
    } else {
      assert init == segments[..i];
    }
  }

  /** The map the loop builds: each pair in turn is put, overwriting an earlier equal key. */
  function QueryMap(pairs: seq<(string, string)>): (m: map<string, string>)
    ensures m.Keys == set p <- pairs :: p.0
  {
    if pairs == [] then map[]
    else
      var init := pairs[..|pairs| - 1];
      var last := pairs[|pairs| - 1];
      assert pairs == init + [last];
      QueryMap(init)[last.0 := last.1]
  }

  /** Putting one more pair into the map. */
  lemma QueryMapSnoc(pairs: seq<(string, string)>, pair: (string, string))
    ensures QueryMap(pairs + [pair]) == QueryMap(pairs)[pair.0 := pair.1]
  {
    assert (pairs + [pair])[..|pairs|] == pairs;
  }

  /** The value stored for a key is the one of its last occurrence. */
  lemma {:induction false} LastOccurrenceWins(pairs: seq<(string, string)>, i: int)
    requires 0 <= i < |pairs|
    requires forall j | i < j < |pairs| :: pairs[j].0 != pairs[i].0
    ensures pairs[i].0 in QueryMap(pairs) && QueryMap(pairs)[pairs[i].0] == pairs[i].1
  {
    var init := pairs[..|pairs| - 1];
    if i < |pairs| - 1 {
      assert init[i] == pairs[i];
      LastOccurrenceWins(init, i);
    }
  }

  /** The whole parse of a query string, as the `for` loop of `autoWebLogin` computes it. */
  function ParseQuery(query: string, decode: string -> Option<string>): Result<map<string, string>, ParseError>
  {
    match DecodePairs(Split(query, '&'), decode)
    case Failure(e) => Failure(e)
    case Success(pairs) => Success(QueryMap(pairs))
  }

  /**
   * The body of that loop for one segment: `indexOf("=")`, then `substring` and
   * `URLDecoder.decode` of the key, then of the value.
   */
  method DecodePair(pair: string, decode: string -> Option<string>) returns (r: Result<(string, string), ParseError>)
    ensures r == DecodeSegment(pair, decode)
  {
    var idx := IndexOf(pair, '=');
    if idx == -1 {
      return Failure(SegmentWithoutEquals(pair));
    }
    var key := decode(pair[..idx]);
    if key.None? {
      return Failure(IllegalEscape(pair[..idx]));
    }
    var value := decode(pair[idx + 1..]);
    if value.None? {
      return Failure(IllegalEscape(pair[idx + 1..]));
    }
    r := Success((key.value, value.value));
  }

  /**
   * The loop of `autoWebLogin` that fills `query_pairs`; an exception thrown by the
   * loop body is returned as `Failure`.
   */
  method ParseQueryPairs(query: string, decode: string -> Option<string>) returns (r: Result<map<string, string>, ParseError>)
    ensures r == ParseQuery(query, decode)
  {
    var pairs := Split(query, '&');
    var queryPairs: map<string, string> := map[];
    for i := 0 to |pairs|
      invariant DecodePairs(pairs[..i], decode).Success?
      invariant queryPairs == QueryMap(DecodePairs(pairs[..i], decode).value)
    {
      var decoded := DecodePair(pairs[i], decode);
      if decoded.Failure? {
        FirstFailureDecides(pairs, decode, i);
        return Failure(decoded.error);
      }
      var (key, value) := decoded.value;
      DecodePairsSnoc(pairs, decode, i, (key, value));
      QueryMapSnoc(DecodePairs(pairs[..i], decode).value, (key, value));
      queryPairs := queryPairs[key := value];
    }
    assert pairs[..|pairs|] == pairs;
    r := Success(queryPairs);
  }

  /** A parse that succeeds saw a `=` in every segment: a segment without one is an error. */
  lemma ParsedSegmentsHaveEquals(query: string, decode: string -> Option<string>)
    ensures ParseQuery(query, decode).Success? <==>
      forall segment <- Split(query, '&') :: DecodeSegment(segment, decode).Success?
    ensures ParseQuery(query, decode).Success? ==> forall segment <- Split(query, '&') :: '=' in segment
  {
    var segments := Split(query, '&');
    DecodePairsEach(segments, decode);
    assert forall segment <- segments :: exists i :: 0 <= i < |segments| && segments[i] == segment;
  }

  /** Appending `&` to a non-empty query string does not change what it parses to. */
  lemma TrailingAmpersandIgnored(query: string, decode: string -> Option<string>)
    requires query != ""
    ensures ParseQuery(query + "&", decode) == ParseQuery(query, decode)
  {
    TrailingSeparatorIgnored(query, '&');
  }

  /** A query string of `&` alone parses to the empty map, since `split` yields no segment. */
  lemma OnlyAmpersandsParseEmpty(n: nat, decode: string -> Option<string>)
    requires n >= 1
    ensures ParseQuery(seq(n, _ => '&'), decode) == Success(map[])
  {
    OnlySeparators(n, '&');
  }

  /** A piece of the join holds every character of the joined text. */
  lemma {:induction false} JoinedCharInSomePart(parts: seq<string>, c: char, x: char)
    requires |parts| >= 1
    requires x in Join(parts, c) && x != c
    ensures exists k :: 0 <= k < |parts| && x in parts[k]
  {
    if |parts| > 1 {
      if x !in parts[0] {
        JoinedCharInSomePart(parts[1..], c, x);
        var k :| 0 <= k < |parts[1..]| && x in parts[1..][k];
        assert x in parts[k + 1];
      }
    }
  }

  /**
   * A leading `&` produces an empty first segment, which has no `=` and throws,
   * unless nothing but `&` follows.
   */
  lemma LeadingAmpersandFails(rest: string, x: char, decode: string -> Option<string>)
    requires x in rest && x != '&'
    ensures ParseQuery("&" + rest, decode) == Failure(SegmentWithoutEquals(""))
  {
    var segments := Split("&" + rest, '&');
    LeadingSeparatorSplit(rest, x);
    assert segments[..0] == [];
    assert DecodeSegment("", decode) == Failure(SegmentWithoutEquals(""));
    FirstFailureDecides(segments, decode, 0);
  }

  /** `split` keeps the empty segment before a leading `&` when something other than `&` follows. */
  lemma LeadingSeparatorSplit(rest: string, x: char)
    requires x in rest && x != '&'
    ensures |Split("&" + rest, '&')| >= 1 && Split("&" + rest, '&')[0] == ""
  {
    var query := "&" + rest;
    IndexOfAppend("", query, '&');
    assert query[..0] == "" && query[1..] == rest;
    var tail := SplitAll(rest, '&');
    assert SplitAll(query, '&') == [""] + tail;
    JoinSplitAll(rest, '&');
    JoinedCharInSomePart(tail, '&', x);
    var k :| 0 <= k < |tail| && x in tail[k];
    assert SplitAll(query, '&')[k + 1] != "";
  }

  /** Segments free of `&`, the last one non-empty, split back out of their join. */
  lemma SplitOfJoined(segments: seq<string>)
    requires |segments| >= 1 && segments[|segments| - 1] != ""
    requires forall k | 0 <= k < |segments| :: '&' !in segments[k]
    ensures Split(Join(segments, '&'), '&') == segments
  {
    SplitAllJoin(segments, '&');
    if '&' !in Join(segments, '&') {
      assert SplitAll(Join(segments, '&'), '&') == [Join(segments, '&')];
    }
  }

  /** A `key=value` segment of plain text decodes to `(key, value)`. */
  lemma PlainSegment(key: string, value: string, decode: string -> Option<string>)
    requires DecodesPlainText(decode)
    requires '=' !in key && '%' !in key && '+' !in key && '%' !in value && '+' !in value
    ensures DecodeSegment(key + "=" + value, decode) == Success((key, value))
  {
    CutPairOfJoined(key, value);
  }

  /** Text that needs no escaping in a query: no escape characters, no separators, no fragment mark. */
  predicate PlainText(s: string)
  {
    '%' !in s && '+' !in s && '&' !in s && '#' !in s
  }

  /** A pair that can be written as `key=value` and read back. */
  predicate PlainPair(pair: (string, string))
  {
    '=' !in pair.0 && PlainText(pair.0) && PlainText(pair.1)
  }

  /** A character other than `=` that neither key nor value holds is absent from `key=value`. */
  lemma SeparatorFree(key: string, value: string, c: char)
    requires c !in key && c !in value && c != '='
    ensures c !in key + "=" + value
  {
  }

  /** The segments `key=value` of the pairs, in order. */
  function Segments(pairs: seq<(string, string)>): (segments: seq<string>)
    ensures |segments| == |pairs|
    ensures forall j | 0 <= j < |pairs| :: segments[j] == pairs[j].0 + "=" + pairs[j].1
  {
    seq(|pairs|, j requires 0 <= j < |pairs| => pairs[j].0 + "=" + pairs[j].1)
  }

  /** A query string that writes the pairs out as `k1=v1&k2=v2&...`. */
  function QueryText(pairs: seq<(string, string)>): string
    requires |pairs| >= 1
  {
    Join(Segments(pairs), '&')
  }

  /** The query text of a single pair is its `key=value`. */
  lemma QueryTextSingle(pair: (string, string))
    ensures QueryText([pair]) == pair.0 + "=" + pair.1
  {
    assert Segments([pair])[0] == pair.0 + "=" + pair.1;
  }

  /** The query text of one more pair in front: its `key=value`, an `&`, and the rest. */
  lemma QueryTextCons(pair: (string, string), rest: seq<(string, string)>)
    requires |rest| >= 1
    ensures QueryText([pair] + rest) == pair.0 + "=" + pair.1 + "&" + QueryText(rest)
  {
    var segments := Segments([pair] + rest);
    assert segments[1..] == Segments(rest);
  }

  /**
   * Writing plain pairs out as a query string and parsing it gives back their map,
   * in which each key holds its last value; the text has no `#`.
   */
  lemma ParsePlainPairs(pairs: seq<(string, string)>, decode: string -> Option<string>)
    requires DecodesPlainText(decode)
    requires |pairs| >= 1 && forall j | 0 <= j < |pairs| :: PlainPair(pairs[j])
    ensures '#' !in QueryText(pairs)
    ensures ParseQuery(QueryText(pairs), decode) == Success(QueryMap(pairs))
  {
    var segments := Segments(pairs);
    forall j | 0 <= j < |segments|
      ensures '&' !in segments[j] && '#' !in segments[j]
    {
      assert PlainPair(pairs[j]);
      SeparatorFree(pairs[j].0, pairs[j].1, '&');
      SeparatorFree(pairs[j].0, pairs[j].1, '#');
    }
    SplitOfJoined(segments);
    if '#' in QueryText(pairs) {
      JoinedCharInSomePart(segments, '&', '#');
      assert false;
    }
    forall i | 0 <= i < |segments|
      ensures DecodeSegment(segments[i], decode) == Success(pairs[i])
    {
      assert PlainPair(pairs[i]);
      PlainSegment(pairs[i].0, pairs[i].1, decode);
    }
    DecodePairsFromEach(segments, decode, pairs);
  }

  /** A character absent from a prefix is absent from every slice of that prefix. */
  lemma AbsentFromSlice(s: string, c: char, lo: int, hi: int)
    requires 0 <= lo <= hi <= |s| && c !in s[..hi]
    ensures c !in s[lo..hi]
  {
    assert s[lo..hi] == s[..hi][lo..];
    assert forall i | lo <= i < hi :: s[..hi][i] == s[i];
  }

  /**
   * `url.getQuery()` of `java.net.URL`: the text after the first `?` up to the
   * fragment's `#`, or `None` (Java's `null`) when there is no `?` before the fragment.
   */
  function QueryOf(url: string): (q: Option<string>)
    ensures q.Some? <==> exists i | 0 <= i < |url| :: url[i] == '?' && '#' !in url[..i]
    ensures q.Some? ==> '#' !in q.value
  {
    var hash := IndexOf(url, '#');
    var limit := if hash == -1 then |url| else hash;
    var question := IndexOf(url, '?');
    if 0 <= question < limit then
      var query := url[question + 1..limit];
      assert '#' !in url[..limit] by {
        if hash == -1 {
          assert url[..limit] == url;
        }
      }
      AbsentFromSlice(url, '#', question + 1, limit);
      AbsentFromSlice(url, '#', 0, question);
      assert url[0..question] == url[..question];
      Some(query)
    else
      assert forall i | 0 <= i < |url| && url[i] == '?' :: '#' in url[..i] by {
        forall i | 0 <= i < |url| && url[i] == '?'
          ensures '#' in url[..i]
        {
          assert url[i] in url[..i + 1];
          assert 0 <= question <= i;
          assert hash != -1 && hash < i;
          assert url[..i][hash] == '#';
        }
      }
      None
  }

  /** The query of `base?query` followed by nothing or by a `#` fragment is `query`. */
  lemma QueryOfComposed(base: string, query: string, tail: string)
    requires '?' !in base && '#' !in base && '#' !in query
    requires tail == "" || tail[0] == '#'
    ensures QueryOf(base + "?" + query + tail) == Some(query)
  {
    var head := base + "?" + query;
    var url := head + tail;
    assert url == base + ("?" + query + tail);
    IndexOfAppend(base, "?" + query + tail, '?');
    assert IndexOf("?" + query + tail, '?') == 0;
    assert '#' !in head;
    IndexOfAppend(head, tail, '#');
    assert tail != "" ==> IndexOf(tail, '#') == 0;
    assert url[|base| + 1..|head|] == query;
  }
}
