/** postgeodb/path.go: the road distance along a node path, summed by one SQL query over
    the path's consecutive node pairs. The query itself is an oracle. */
module PostgeoPath {
  import opened Wrappers
  import opened Text
  import opened GeoTypes

  type SqlOracle = string -> SumQuery

  const NoDistance := "No distance found. Check points exist."

  /** `fmt.Sprintf("(%d,%d)", a, b)`. */
  function PairText(a: int, b: int): string
  {
    "(" + (IntToDecimal(a) + [','] + (IntToDecimal(b) + [')']))
  }

  lemma PairTextSplit(a: int, b: int, x: string)
    ensures PairText(a, b) + x == "(" + (IntToDecimal(a) + [','] + (IntToDecimal(b) + [')'] + x))
  {
    var da, db := IntToDecimal(a) + [','], IntToDecimal(b);
    ConcatAssoc("(", da + (db + [')']), x);
    ConcatAssoc(da, db + [')'], x);
    ConcatAssoc(db, [')'], x);
  }

  /** The row value of the edge leaving the `i`-th node of a path. */
  function EdgeAt(nodes: seq<int>, i: nat): string
    requires i + 1 < |nodes|
  {
    PairText(nodes[i], nodes[i + 1])
  }

  /** The consecutive node pairs of a path, as SQL row values. */
  function EdgePairs(nodes: seq<int>): (pairs: seq<string>)
    ensures |nodes| >= 1 ==> |pairs| == |nodes| - 1
    decreases |nodes|
  {
    if |nodes| < 2 then [] else [EdgeAt(nodes, 0)] + EdgePairs(nodes[1..])
  }

  /** The `k`-th row value is the edge leaving the `k`-th node. */
  lemma {:induction false} EdgePairsAt(nodes: seq<int>, k: nat)
    requires k + 1 < |nodes|
    ensures EdgePairs(nodes)[k] == EdgeAt(nodes, k)
    decreases k
  {
    if k > 0 {
      EdgePairsAt(nodes[1..], k - 1);
      assert nodes[1..][k - 1] == nodes[k] && nodes[1..][k] == nodes[k + 1];
    }
  }

  const QueryHead := "select sum(dist) from (values"

  /** What follows the pair list in the query: the join against the country's edge table. */
  function QueryTail(country: string): string
  {
    ") as t left join " + country + "_speed_edges on column1=id1 and column2=id2"
  }

  /** The query text sent to the database. */
  function DistanceQuery(nodes: seq<int>, country: string): string
  {
    QueryHead + Join(EdgePairs(nodes), ",") + QueryTail(country)
  }

  /** `QueryDistance`: no query for a path of fewer than two nodes; otherwise the summed
      distance, a fixed message for no row, or the database's error. */
  function DistanceSpec(sql: SqlOracle, nodes: seq<int>, country: string): (r: Result<int, string>)
    ensures |nodes| < 2 ==> r == Success(0)
    ensures |nodes| >= 2 && sql(DistanceQuery(nodes, country)).Sum? ==>
      r == Success(sql(DistanceQuery(nodes, country)).total)
    ensures |nodes| >= 2 && sql(DistanceQuery(nodes, country)).NoRows? ==> r == Failure(NoDistance)
    ensures |nodes| >= 2 && sql(DistanceQuery(nodes, country)).SqlError? ==>
      r == Failure(sql(DistanceQuery(nodes, country)).message)
  {
    if |nodes| < 2 then Success(0)
    else match sql(DistanceQuery(nodes, country))
      case Sum(total) => Success(total)
      case NoRows => Failure(NoDistance)
      case SqlError(m) => Failure(m)
  }

  /** `QueryDistance`: the pair list is built in a loop, then sent in one query. */
  method QueryDistance(sql: SqlOracle, nodes: seq<int>, country: string) returns (r: Result<int, string>)
    ensures r == DistanceSpec(sql, nodes, country)
  {
    if |nodes| < 2 {
      return Success(0);
    }
    var edgePairs := CollectEdgePairs(nodes);
    var edges := Join(edgePairs, ",");
    var q := QueryHead + edges + QueryTail(country);
    var row := sql(q);
    if row.NoRows? {
      r := Failure(NoDistance);
    } else if row.SqlError? {
      r := Failure(row.message);
    } else {
      r := Success(row.total);
    }
  }

  /** What the first `n` rounds of a loop over consecutive node pairs produce when each round
      appends `format` of the pair. */
  function FormatPairs<T>(format: (int, int) -> T, nodes: seq<int>, n: nat): (r: seq<T>)
    requires n < |nodes|
    ensures |r| == n
  {
    if n == 0 then [] else FormatPairs(format, nodes, n - 1) + [format(nodes[n - 1], nodes[n])]
  }

  lemma {:induction false} FormatPairsAt<T>(format: (int, int) -> T, nodes: seq<int>, n: nat, k: nat)
    requires k < n < |nodes|
    ensures FormatPairs(format, nodes, n)[k] == format(nodes[k], nodes[k + 1])
    decreases n
  {
    if k < n - 1 {
      FormatPairsAt(format, nodes, n - 1, k);
    }
  }

  /** Once the loop has run over every node but the last, it has formatted the pair list. */
  lemma LoopFormatsEdgePairs(nodes: seq<int>)
    requires |nodes| >= 2
    ensures FormatPairs(PairText, nodes, |nodes| - 1) == EdgePairs(nodes)
  {
    var pairs := FormatPairs(PairText, nodes, |nodes| - 1);
    forall k | 0 <= k < |pairs|
      ensures pairs[k] == EdgePairs(nodes)[k]
    {
      FormatPairsAt(PairText, nodes, |nodes| - 1, k);
      EdgePairsAt(nodes, k);
    }
  }

  /** The loop of `QueryDistance` that formats each consecutive pair. */
  method CollectEdgePairs(nodes: seq<int>) returns (edgePairs: seq<string>)
    requires |nodes| >= 2
    ensures edgePairs == EdgePairs(nodes)
  {
    edgePairs := [];
    for i := 0 to |nodes| - 1
      invariant edgePairs == FormatPairs(PairText, nodes, i)
    {
      var edgeStart, edgeEnd := nodes[i], nodes[i + 1];
      edgePairs := edgePairs + [PairText(edgeStart, edgeEnd)];
    }
    LoopFormatsEdgePairs(nodes);
  }

  /** A row value followed by anything determines its two nodes and what follows. */
  lemma PairTextInjective(a: int, b: int, a': int, b': int, x: string, y: string)
    requires PairText(a, b) + x == PairText(a', b') + y
    ensures a == a' && b == b' && x == y
  {
    var da, db, da', db' := IntToDecimal(a), IntToDecimal(b), IntToDecimal(a'), IntToDecimal(b');
    NoSeparatorInDecimal(a, ',');
    NoSeparatorInDecimal(a', ',');
    NoSeparatorInDecimal(b, ')');
    NoSeparatorInDecimal(b', ')');
    PairTextSplit(a, b, x);
    PairTextSplit(a', b', y);
    AppendCancel("(", da + [','] + (db + [')'] + x), da' + [','] + (db' + [')'] + y));
    SeparatedEqual(da, da', ',', db + [')'] + x, db' + [')'] + y);
    SeparatedEqual(db, db', ')', x, y);
    IntDecimalInjective(a, a');
    IntDecimalInjective(b, b');
  }

  /** What follows the first row value in the pair list. */
  function RestPairs(nodes: seq<int>): (r: string)
    requires |nodes| >= 2
    ensures |r| == 0 <==> |nodes| == 2
  {
    if |nodes| == 2 then "" else "," + Join(EdgePairs(nodes[1..]), ",")
  }

  lemma JoinEdgePairs(nodes: seq<int>)
    requires |nodes| >= 2
    ensures Join(EdgePairs(nodes), ",") == PairText(nodes[0], nodes[1]) + RestPairs(nodes)
  {
    if |nodes| == 2 {
      assert EdgePairs(nodes) == [PairText(nodes[0], nodes[1])];
    }
  }

  /** The pair list of the query names the path exactly: different paths of two or more
      nodes give different lists. */
  lemma {:induction false} PairListDeterminesPath(n1: seq<int>, n2: seq<int>)
    requires |n1| >= 2 && |n2| >= 2
    requires Join(EdgePairs(n1), ",") == Join(EdgePairs(n2), ",")
    ensures n1 == n2
    decreases |n1|
  {
    JoinEdgePairs(n1);
    JoinEdgePairs(n2);
    PairTextInjective(n1[0], n1[1], n2[0], n2[1], RestPairs(n1), RestPairs(n2));
    if |n1| == 2 {
      assert n1 == [n2[0], n2[1]] == n2;
    } else {
      AppendCancel(",", Join(EdgePairs(n1[1..]), ","), Join(EdgePairs(n2[1..]), ","));
      PairListDeterminesPath(n1[1..], n2[1..]);
      assert n1 == [n1[0]] + n1[1..] && n2 == [n2[0]] + n2[1..];
    }
  }

  /** The query sent for a country identifies the path it measures. */
  lemma QueryDeterminesPath(n1: seq<int>, n2: seq<int>, country: string)
    requires |n1| >= 2 && |n2| >= 2
    requires DistanceQuery(n1, country) == DistanceQuery(n2, country)
    ensures n1 == n2
  {
    var head, tail := QueryHead, QueryTail(country);
    var j1, j2 := Join(EdgePairs(n1), ","), Join(EdgePairs(n2), ",");
    SuffixCancel(head + j1, head + j2, tail);
    AppendCancel(head, j1, j2);
    PairListDeterminesPath(n1, n2);
  }
}
