/**
 * The two generic persistence helpers of db.js. `paged` appends LIMIT/OFFSET bounds to a
 * query, cleans the requested bounds and builds the `self`/`next` links of a page;
 * `conditionalUpdate` turns sparse field/value arrays into one `UPDATE … SET … WHERE id = $1`.
 * The query executor (`query`) is a parameter: a function from a statement to the rows it returns.
 */
module Db {
  import opened Wrappers
  import opened Js
  import opened Seqs

  /** A parameterised statement as handed to `query`: `$k` in `text` stands for `params[k - 1]`. */
  datatype Statement = Statement(text: string, params: seq<Value>)

  /** The placeholder `$k`. */
  function Placeholder(k: nat): string
  {
    "$" + IntToString(k)
  }

  /** Placeholder `$k` of `st` is bound to `v`. */
  predicate Binds(st: Statement, k: nat, v: Value)
  {
    1 <= k <= |st.params| && st.params[k - 1] == v
  }

  /** An integer as a SQL parameter (a JavaScript number). */
  function IntParam(k: int): Value
  {
    Num(Finite(k as real))
  }

  // ---------------------------------------------------------------------------
  // paged

  const Host := "https://vef2-hopverkefni1.herokuapp.com"
  /** The limit used when the requested one is not a positive integer. */
  const DefaultLimit: nat := 10
  /** The offset used when the requested one is not a positive integer. */
  const DefaultOffset: nat := 0
  /** A page with at least this many rows gets a `next` link. */
  const FullPage: nat := 10
  /** What the `next` link adds to the requested offset. */
  const NextStep: int := 10

  datatype Links = Links(self: string, next: Option<string>)

  /** `{ limit, offset, items, _links }`. */
  datatype Page<R> = Page(limit: nat, offset: nat, items: seq<R>, links: Links)

  predicate PositiveInteger(n: Number)
  {
    IsInteger(n) && n.v > 0.0
  }

  /** `Number.isInteger(Number(raw)) && Number(raw) > 0 ? Number(raw) : fallback`. */
  function CleanBound(raw: string, fallback: nat): (r: nat)
    ensures PositiveInteger(StringToNumber(raw)) ==> StringToNumber(raw) == Finite(r as real)
    ensures !PositiveInteger(StringToNumber(raw)) ==> r == fallback
  {
    var n := StringToNumber(raw);
    if PositiveInteger(n) then IntegerValue(n) else fallback
  }

  /** The requested query is followed by ` LIMIT $L OFFSET $O`, L and O numbering on after the caller's values. */
  function PagedStatement(sql: string, values: seq<Value>, limit: nat, offset: nat): (st: Statement)
    ensures |st.params| == |values| + 2 && st.params[..|values|] == values
    ensures Binds(st, |values| + 1, IntParam(limit)) && Binds(st, |values| + 2, IntParam(offset))
    ensures st.text == sql + " LIMIT " + Placeholder(|values| + 1) + " OFFSET " + Placeholder(|values| + 2)
  {
    Statement(sql + " LIMIT " + Placeholder(|values| + 1) + " OFFSET " + Placeholder(|values| + 2),
              values + [IntParam(limit), IntParam(offset)])
  }

  /** One `key=value` query parameter. */
  function Param(key: string, value: string): string
  {
    key + "=" + value
  }

  /** A page link: the request path up to its first `?`, the raw offset and limit, then `qString`. */
  function Link(slug: string, offset: string, limit: string, qString: string): (r: string)
    ensures Host + BeforeFirst(slug, '?') + "?" <= r
    ensures |qString| <= |r| && r[|r| - |qString|..] == qString
  {
    Host + BeforeFirst(slug, '?') + "?" + (Param("offset", offset) + "&" + (Param("limit", limit) + qString))
  }

  /** `${parseInt(offset, 10) + 10}`. */
  function NextOffsetText(rawOffset: string): (r: string)
    ensures ParseInt(rawOffset).None? ==> r == "NaN"
    ensures '&' !in r
  {
    match ParseInt(rawOffset)
    case None => "NaN"
    case Some(k) => NoSeparatorInInt(k + NextStep); IntToString(k + NextStep)
  }

  /** `parseInt` of the next offset is the requested offset, as `parseInt` reads it, plus 10. */
  lemma NextOffsetRoundTrip(rawOffset: string, k: int)
    requires ParseInt(rawOffset) == Some(k)
    ensures ParseInt(NextOffsetText(rawOffset)) == Some(k + NextStep)
  {
    ParseIntOfInt(k + NextStep);
  }

  /**
   * `paged(sql, { slug, offset, limit, values, qString })`. `offset`/`limit` are the raw
   * query-string values, `None` when absent; the destructuring defaults `0` and `10` behave
   * exactly like the strings "0" and "10" in every use below.
   */
  function Paged<R>(sql: string, slug: string, offset: Option<string>, limit: Option<string>,
                    values: seq<Value>, qString: string, exec: Statement -> seq<R>): (p: Page<R>)
    ensures p.limit >= 1
    ensures p.limit == CleanBound(limit.GetOr("10"), DefaultLimit)
    ensures p.offset == CleanBound(offset.GetOr("0"), DefaultOffset)
    ensures p.items == exec(PagedStatement(sql, values, p.limit, p.offset))
    ensures p.links.self == Link(slug, offset.GetOr("0"), limit.GetOr("10"), qString)
    ensures p.links.next.Some? <==> |p.items| >= FullPage
    ensures p.links.next.Some? ==>
              p.links.next.value == Link(slug, NextOffsetText(offset.GetOr("0")), limit.GetOr("10"), qString)
  {
    var rawOffset := offset.GetOr("0");
    var rawLimit := limit.GetOr("10");
    var cleanLimit := CleanBound(rawLimit, DefaultLimit);
    var cleanOffset := CleanBound(rawOffset, DefaultOffset);
    var rows := exec(PagedStatement(sql, values, cleanLimit, cleanOffset));
    var self := Link(slug, rawOffset, rawLimit, qString);
    var next := Link(slug, NextOffsetText(rawOffset), rawLimit, qString);
    Page(cleanLimit, cleanOffset, rows, Links(self, if |rows| >= FullPage then Some(next) else None))
  }

  // ---------------------------------------------------------------------------
  // Reading links back

  /** `q.split('&')`. */
  function Segments(q: string): (r: seq<string>)
    ensures r != []
    decreases |q|
  {
    match IndexOfAny(q, {'&'})
    case None => [q]
    case Some(k) => [q[..k]] + Segments(q[k + 1..])
  }

  /** The value of the first `key=value` segment with the given key. */
  function Lookup(segments: seq<string>, key: string): Option<string>
  {
    if segments == [] then None
    else if BeforeFirst(segments[0], '=') == key && |key| < |segments[0]| then Some(segments[0][|key| + 1..])
    else Lookup(segments[1..], key)
  }

  /** The value a link gives a query parameter (no percent-decoding: the links echo raw text). */
  function QueryParam(url: string, key: string): Option<string>
  {
    match IndexOfAny(url, {'?'})
    case None => None
    case Some(k) => Lookup(Segments(url[k + 1..]), key)
  }

  /** A `qString` suffix: empty, or further `&`-separated parameters. */
  predicate QuerySuffix(qString: string)
  {
    qString == [] || qString[0] == '&'
  }

  lemma IndexOfSeparator(a: string, c: char, b: string)
    requires c !in a
    ensures IndexOfAny(a + [c] + b, {c}) == Some(|a|)
  {
    var s := a + [c] + b;
    assert s[|a|] == c;
    forall i | 0 <= i < |a| ensures s[i] !in {c} {
      assert s[i] == a[i];
    }
  }

  lemma SegmentsCons(a: string, b: string)
    requires '&' !in a
    ensures Segments(a + "&" + b) == [a] + Segments(b)
  {
    IndexOfSeparator(a, '&', b);
    var s := a + "&" + b;
    assert s[..|a|] == a && s[|a| + 1..] == b;
  }

  lemma SegmentsLast(a: string)
    requires '&' !in a
    ensures Segments(a) == [a]
  {
  }

  lemma KeyOf(key: string, v: string)
    requires '=' !in key
    ensures BeforeFirst(key + "=" + v, '=') == key
    ensures (key + "=" + v)[|key| + 1..] == v
  {
    IndexOfSeparator(key, '=', v);
    assert (key + "=" + v)[..|key|] == key;
  }

  lemma NoSeparatorIn(c: char, key: string, v: string)
    requires c != '=' && c !in key && c !in v
    ensures c !in key + "=" + v
  {
  }

  /** The segments a `qString` suffix adds after the parameters before it. */
  function SuffixSegments(qString: string): seq<string>
  {
    if qString == [] then [] else Segments(qString[1..])
  }

  /** The segments of one segment followed by a `qString` suffix. */
  lemma SuffixedSegments(seg: string, qString: string)
    requires '&' !in seg && QuerySuffix(qString)
    ensures Segments(seg + qString) == [seg] + SuffixSegments(qString)
  {
    if qString == [] {
      assert seg + qString == seg;
      SegmentsLast(seg);
    } else {
      assert seg + qString == seg + "&" + qString[1..];
      SegmentsCons(seg, qString[1..]);
    }
  }

  /** The segments of `a&b` followed by a `qString` suffix. */
  lemma PairSegments(a: string, b: string, qString: string)
    requires '&' !in a && '&' !in b && QuerySuffix(qString)
    ensures Segments(a + "&" + (b + qString)) == [a] + ([b] + SuffixSegments(qString))
  {
    SegmentsCons(a, b + qString);
    SuffixedSegments(b, qString);
  }

  /** The two keys a link always carries contain no separator and differ. */
  lemma LinkKeys()
    ensures '&' !in "offset" && '=' !in "offset" && '&' !in "limit" && '=' !in "limit"
    ensures "offset" != "limit"
  {
    assert "offset"[0] != "limit"[0];
  }

  lemma HostPlain()
    ensures '?' !in Host
  {
  }

  lemma LookupHit(key: string, v: string, rest: seq<string>)
    requires '=' !in key
    ensures Lookup([key + "=" + v] + rest, key) == Some(v)
  {
    KeyOf(key, v);
  }

  lemma LookupMiss(seg: string, rest: seq<string>, key: string)
    requires BeforeFirst(seg, '=') != key
    ensures Lookup([seg] + rest, key) == Lookup(rest, key)
  {
    assert ([seg] + rest)[1..] == rest;
  }

  /** Both keys of a two-parameter prefix are found, each with its own value. */
  lemma PairLookup(k1: string, v1: string, k2: string, v2: string, rest: seq<string>)
    requires '=' !in k1 && '=' !in k2 && k1 != k2
    ensures Lookup([Param(k1, v1)] + ([Param(k2, v2)] + rest), k1) == Some(v1)
    ensures Lookup([Param(k1, v1)] + ([Param(k2, v2)] + rest), k2) == Some(v2)
  {
    LookupHit(k1, v1, [Param(k2, v2)] + rest);
    KeyOf(k1, v1);
    LookupMiss(Param(k1, v1), [Param(k2, v2)] + rest, k2);
    LookupHit(k2, v2, rest);
  }

  /** Any other key is looked up past a two-parameter prefix. */
  lemma PairLookupOther(k1: string, v1: string, k2: string, v2: string, rest: seq<string>, key: string)
    requires '=' !in k1 && '=' !in k2 && key != k1 && key != k2
    ensures Lookup([Param(k1, v1)] + ([Param(k2, v2)] + rest), key) == Lookup(rest, key)
  {
    KeyOf(k1, v1);
    LookupMiss(Param(k1, v1), [Param(k2, v2)] + rest, key);
    KeyOf(k2, v2);
    LookupMiss(Param(k2, v2), rest, key);
  }

  /** The query of `path?query`, for a path without `?`. */
  lemma QueryAfterPath(path: string, query: string, key: string)
    requires '?' !in path
    ensures QueryParam(path + "?" + query, key) == Lookup(Segments(query), key)
  {
    IndexOfSeparator(path, '?', query);
    assert (path + "?" + query)[|path| + 1..] == query;
  }

  /** Reading a parameter back from `path?k1=v1&k2=v2` followed by a `qString` suffix. */
  lemma PairQueryParam(path: string, k1: string, v1: string, k2: string, v2: string, qString: string, key: string)
    requires '?' !in path && QuerySuffix(qString)
    requires '&' !in k1 && '&' !in v1 && '&' !in k2 && '&' !in v2
    requires '=' !in k1 && '=' !in k2 && k1 != k2
    ensures QueryParam(path + "?" + (Param(k1, v1) + "&" + (Param(k2, v2) + qString)), key)
            == if key == k1 then Some(v1) else if key == k2 then Some(v2) else Lookup(SuffixSegments(qString), key)
  {
    var query := Param(k1, v1) + "&" + (Param(k2, v2) + qString);
    QueryAfterPath(path, query, key);
    NoSeparatorIn('&', k1, v1);
    NoSeparatorIn('&', k2, v2);
    PairSegments(Param(k1, v1), Param(k2, v2), qString);
    if key == k1 || key == k2 {
      PairLookup(k1, v1, k2, v2, SuffixSegments(qString));
    } else {
      PairLookupOther(k1, v1, k2, v2, SuffixSegments(qString), key);
    }
  }

  /** The path of a link holds no `?`. */
  lemma LinkPathPlain(slug: string)
    ensures '?' !in Host + BeforeFirst(slug, '?')
  {
    HostPlain();
  }

  /** Reading a parameter back from a link. */
  lemma LinkParam(slug: string, o: string, l: string, qString: string, key: string)
    requires '&' !in o && '&' !in l && QuerySuffix(qString)
    ensures QueryParam(Link(slug, o, l, qString), key)
            == if key == "offset" then Some(o) else if key == "limit" then Some(l) else Lookup(SuffixSegments(qString), key)
  {
    LinkPathPlain(slug);
    LinkKeys();
    PairQueryParam(Host + BeforeFirst(slug, '?'), "offset", o, "limit", l, qString, key);
  }

  /** The offset comes first in a link, so it reads back whatever follows it. */
  lemma LinkOffset(slug: string, o: string, l: string, qString: string)
    requires '&' !in o
    ensures QueryParam(Link(slug, o, l, qString), "offset") == Some(o)
  {
    LinkPathPlain(slug);
    LinkKeys();
    QueryAfterPath(Host + BeforeFirst(slug, '?'), Param("offset", o) + "&" + (Param("limit", l) + qString), "offset");
    NoSeparatorIn('&', "offset", o);
    SegmentsCons(Param("offset", o), Param("limit", l) + qString);
    LookupHit("offset", o, Segments(Param("limit", l) + qString));
  }

  /** Reading a link back gives the offset and limit text it was built from. */
  lemma LinkRoundTrip(slug: string, o: string, l: string, qString: string)
    requires '&' !in o && '&' !in l && QuerySuffix(qString)
    ensures QueryParam(Link(slug, o, l, qString), "offset") == Some(o)
    ensures QueryParam(Link(slug, o, l, qString), "limit") == Some(l)
  {
    LinkParam(slug, o, l, qString, "offset");
    LinkKeys();
    LinkParam(slug, o, l, qString, "limit");
  }

  /** Any other parameter of a link is read from the `qString` suffix alone. */
  lemma LinkSuffixParam(slug: string, o: string, l: string, qString: string, key: string)
    requires '&' !in o && '&' !in l && QuerySuffix(qString)
    requires key != "offset" && key != "limit"
    ensures QueryParam(Link(slug, o, l, qString), key) == Lookup(SuffixSegments(qString), key)
  {
    LinkParam(slug, o, l, qString, key);
  }

  // ---------------------------------------------------------------------------
  // What paged promises about its bounds and links

  /** A positive integer written in decimal is used as it is. */
  lemma CleanBoundOfPositive(k: nat, fallback: nat)
    requires k > 0
    ensures CleanBound(IntToString(k), fallback) == k
  {
    StringToNumberOfInt(k);
  }

  /** Zero and negative integers fall back to the default. */
  lemma CleanBoundOfNonPositive(k: int, fallback: nat)
    requires k <= 0
    ensures CleanBound(IntToString(k), fallback) == fallback
  {
    StringToNumberOfInt(k);
  }

  /** `limit=-5` gives the default limit of 10. */
  lemma CleanBoundRejectsNegative()
    ensures CleanBound("-5", DefaultLimit) == 10
  {
    CleanBoundOfNonPositive(-5, DefaultLimit);
    assert IntToString(-5) == "-5";
  }

  lemma TextIsNaN()
    ensures TrimmedToNumber("abc") == NaN
  {
    assert "abc"[0] == 'a';
    assert IndexOfAny("abc", {'e', 'E'}) == None;
    assert IndexOfAny("abc", {'.'}) == None;
  }

  /** `limit=abc` gives the default limit of 10. */
  lemma CleanBoundRejectsText()
    ensures CleanBound("abc", DefaultLimit) == 10
  {
    assert StringToNumber("abc") == NaN by {
      StringToNumberUntrimmed("abc");
      TextIsNaN();
    }
  }

  lemma FractionMantissa()
    ensures Mantissa("2.5") == Some(2.5)
  {
    assert IndexOfAny("2.5", {'.'}) == Some(1);
    assert "2.5"[..1] == "2" && "2.5"[2..] == "5";
    assert DigitsValue("2", 10) == 2 && DigitsValue("5", 10) == 5;
  }

  lemma FractionIsFinite()
    ensures DecimalToNumber("2.5") == Finite(2.5)
  {
    assert IndexOfAny("2.5", {'e', 'E'}) == None;
    FractionMantissa();
  }

  /** `limit=2.5` gives the default limit of 10. */
  lemma CleanBoundRejectsFraction()
    ensures CleanBound("2.5", DefaultLimit) == 10
  {
    assert StringToNumber("2.5") == Finite(2.5) by {
      StringToNumberDecimal("2.5");
      FractionIsFinite();
    }
  }

  /** The `next` link advances the offset `parseInt` reads from the request by a fixed 10, whatever the limit. */
  lemma NextLinkAdvancesOffset<R>(sql: string, slug: string, offset: string, k: int, limit: string,
                                  values: seq<Value>, qString: string, exec: Statement -> seq<R>)
    requires ParseInt(offset) == Some(k)
    requires |Paged(sql, slug, Some(offset), Some(limit), values, qString, exec).items| >= FullPage
    ensures var p := Paged(sql, slug, Some(offset), Some(limit), values, qString, exec);
            p.links.next.Some? && QueryParam(p.links.next.value, "offset") == Some(IntToString(k + 10))
  {
    var p := Paged(sql, slug, Some(offset), Some(limit), values, qString, exec);
    assert p.links.next == Some(Link(slug, NextOffsetText(offset), limit, qString));
    NextLinkOffset(slug, offset, k, limit, qString);
  }

  /** Reading `offset` back from a link built with the next offset gives `parseInt(offset) + 10`. */
  lemma NextLinkOffset(slug: string, offset: string, k: int, limit: string, qString: string)
    requires ParseInt(offset) == Some(k)
    ensures QueryParam(Link(slug, NextOffsetText(offset), limit, qString), "offset") == Some(IntToString(k + 10))
  {
    assert NextOffsetText(offset) == IntToString(k + 10);
    LinkOffset(slug, IntToString(k + 10), limit, qString);
  }

  /** When the executor honours LIMIT, a limit below 10 never yields a `next` link, however many rows remain. */
  lemma SmallLimitHasNoNext<R>(sql: string, slug: string, offset: Option<string>, limit: Option<string>,
                               values: seq<Value>, qString: string, exec: Statement -> seq<R>)
    requires forall l: nat, o: nat :: |exec(PagedStatement(sql, values, l, o))| <= l
    requires CleanBound(limit.GetOr("10"), DefaultLimit) < FullPage
    ensures Paged(sql, slug, offset, limit, values, qString, exec).links.next.None?
  {
  }

  // ---------------------------------------------------------------------------
  // conditionalUpdate

  predicate IsString(v: Value)
  {
    v.Str?
  }

  /** `typeof v === 'string' || typeof v === 'number'`. */
  predicate IsScalar(v: Value)
  {
    v.Str? || v.Num?
  }

  /** `fields.filter(i => typeof i === 'string')`. */
  function StringFields(fields: seq<Value>): seq<Value>
  {
    Filter(fields, IsString)
  }

  /** `values.filter(i => typeof i === 'string' || typeof i === 'number')`. */
  function ScalarValues(values: seq<Value>): seq<Value>
  {
    Filter(values, IsScalar)
  }

  /** `fields.map((field, i) => `${field} = $${i + 2}`)`. */
  function SetClauses(fields: seq<Value>): (r: seq<string>)
    requires forall i :: 0 <= i < |fields| ==> fields[i].Str?
  {
    seq(|fields|, i requires 0 <= i < |fields| => fields[i].s + " = " + Placeholder(i + 2))
  }

  function Join(parts: seq<string>, sep: string): string
  {
    if parts == [] then "" else if |parts| == 1 then parts[0] else parts[0] + sep + Join(parts[1..], sep)
  }

  /** `result.rows[0]`: `undefined` for an empty result. */
  function FirstRow<R>(rows: seq<R>): (r: Option<R>)
    ensures r.Some? <==> rows != []
    ensures r.Some? ==> r.value == rows[0]
  {
    if rows == [] then None else Some(rows[0])
  }

  /** The outcome of `conditionalUpdate`: `false`, the thrown length error, or the statement it runs. */
  datatype UpdateOutcome = NothingToUpdate | Mismatch | Issue(clauses: seq<string>, st: Statement)

  function ConditionalUpdate(table: string, id: Value, fields: seq<Value>, values: seq<Value>): (r: UpdateOutcome)
    ensures r.NothingToUpdate? <==> StringFields(fields) == []
    ensures r.Mismatch? <==> StringFields(fields) != [] && |StringFields(fields)| != |ScalarValues(values)|
    ensures r.Issue? ==> r.st.params == [id] + ScalarValues(values) && Binds(r.st, 1, id)
    ensures r.Issue? ==> |r.clauses| == |StringFields(fields)| == |ScalarValues(values)|
    ensures r.Issue? ==> forall i :: 0 <= i < |r.clauses| ==>
              StringFields(fields)[i].Str? &&
              r.clauses[i] == StringFields(fields)[i].s + " = " + Placeholder(i + 2)
              && Binds(r.st, i + 2, ScalarValues(values)[i])
    ensures r.Issue? ==> r.st.text == "UPDATE " + table + " SET " + Join(r.clauses, ", ") + " WHERE id = $1 RETURNING *"
  {
    var filteredFields := StringFields(fields);
    var filteredValues := ScalarValues(values);
    if |filteredFields| == 0 then NothingToUpdate
    else if |filteredFields| != |filteredValues| then Mismatch
    else
      assert forall i :: 0 <= i < |filteredFields| ==> filteredFields[i].Str? by {
        forall i | 0 <= i < |filteredFields| ensures filteredFields[i].Str? {
          assert filteredFields[i] in filteredFields;
        }
      }
      var updates := SetClauses(filteredFields);
      Issue(updates, Statement("UPDATE " + table + " SET " + Join(updates, ", ") + " WHERE id = $1 RETURNING *",
                               [id] + filteredValues))
  }

  /** Arrays built pairwise (a string field exactly where there is a string or number value) never trip the length check. */
  lemma {:induction false} AlignedArraysAgree(fields: seq<Value>, values: seq<Value>)
    requires |fields| == |values|
    requires forall i :: 0 <= i < |fields| ==> (IsString(fields[i]) <==> IsScalar(values[i]))
    ensures |StringFields(fields)| == |ScalarValues(values)|
  {
    if fields != [] {
      var n := |fields| - 1;
      AlignedArraysAgree(fields[..n], values[..n]);
    }
  }

  /** Filtering is per array, not per pair: a string field beside a boolean or null value throws. */
  lemma UnpairedValueThrows(table: string, id: Value, field: string, v: Value)
    requires !IsScalar(v)
    ensures ConditionalUpdate(table, id, [Str(field)], [v]).Mismatch?
  {
    FilterSingleton(Str(field), IsString);
    FilterSingleton(v, IsScalar);
  }
}
