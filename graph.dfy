/** A random graph built together with a 3-colouring that it respects. */
module ThreeColoring {
  import opened Bytes

  /** Number of nodes of the graph the module-level generator builds. */
  const DefaultSize: nat := 20

  /** The text label of each colour index: red, green ("vert"), blue. */
  const Labels: seq<string> := ["r", "v", "b"]

  /** True when `colors` gives each of `size` nodes a colour index in {0, 1, 2}. */
  predicate IsColoring(colors: seq<int>, size: nat) {
    |colors| == size && forall k :: 0 <= k < size ==> 0 <= colors[k] < 3
  }

  /** The entry at row `a`, column `b` of the adjacency matrix that colouring
      `colors` and coin oracle `coin` produce. The unordered pair {a, b} is
      decided once, with the larger index first, as the nested loop meets it. */
  function Entry(colors: seq<int>, coin: (nat, nat) -> bool, a: nat, b: nat): (e: int)
    requires a < |colors| && b < |colors|
    ensures e == 0 || e == 1
    ensures a == b ==> e == 0
    ensures e == 1 ==> colors[a] != colors[b]
    ensures b < a ==> (e == 1 <==> colors[a] != colors[b] && coin(a, b))
  {
    if a == b then 0
    else
      var hi, lo := if a < b then b else a, if a < b then a else b;
      if colors[hi] != colors[lo] && coin(hi, lo) then 1 else 0
  }

  /** The matrix does not depend on which way round a pair is asked. */
  lemma EntrySymmetric(colors: seq<int>, coin: (nat, nat) -> bool, a: nat, b: nat)
    requires a < |colors| && b < |colors|
    ensures Entry(colors, coin, a, b) == Entry(colors, coin, b, a)
  {
  }

  /** The labels of two colour indices are equal exactly when the indices are. */
  lemma LabelsDistinct(c: int, d: int)
    requires 0 <= c < 3 && 0 <= d < 3
    ensures IsAscii(Labels[c]) && |EncodeAscii(Labels[c])| == 1
    ensures IsAscii(Labels[d])
    ensures EncodeAscii(Labels[c]) == EncodeAscii(Labels[d]) <==> c == d
  {
    assert Labels[0] == "r" && Labels[1] == "v" && Labels[2] == "b";
    EncodeAsciiInjective(Labels[c], Labels[d]);
  }

  class Graph3Colorable {
    var size: nat
    var colors: seq<int>
    var graph: array2<int>

    /** The colouring covers every node with an index in {0, 1, 2}. */
    ghost predicate ColorsValid()
      reads this
    {
      IsColoring(colors, size)
    }

    /** The object invariant: a size-by-size symmetric 0/1 matrix with a zero
        diagonal whose edges all join differently coloured nodes. */
    ghost predicate Valid()
      reads this, graph
    {
      ColorsValid() &&
      graph.Length0 == size && graph.Length1 == size &&
      (forall a, b :: 0 <= a < size && 0 <= b < size ==> graph[a, b] == 0 || graph[a, b] == 1) &&
      (forall a, b :: 0 <= a < size && 0 <= b < size ==> graph[a, b] == graph[b, a]) &&
      (forall a :: 0 <= a < size ==> graph[a, a] == 0) &&
      (forall a, b :: 0 <= a < size && 0 <= b < size && graph[a, b] == 1 ==> colors[a] != colors[b])
    }

    /** Draws the colouring, then the edges. `draws` stands for the `size` integers
        drawn from {0, 1, 2}; `coin(i, j)` for the coin tossed for the pair (i, j).
        The size defaults to 20 nodes. */
    constructor (draws: seq<int>, coin: (nat, nat) -> bool, size: nat := DefaultSize)
      requires IsColoring(draws, size)
      ensures this.size == size && colors == draws
      ensures Valid() && fresh(graph)
      ensures forall a, b :: 0 <= a < size && 0 <= b < size ==> graph[a, b] == Entry(colors, coin, a, b)
    {
      this.size := size;
      colors := [];
      graph := new int[0, 0];  // replaced by RandomAdjacency below
      new;
      RandomColors(draws);
      RandomAdjacency(coin);
    }

    /** Replaces the colouring by the drawn one. */
    method RandomColors(draws: seq<int>)
      requires IsColoring(draws, size)
      modifies this`colors
      ensures colors == draws && ColorsValid()
    {
      colors := draws;
    }

    /** Builds the adjacency matrix from a zero matrix: each pair j < i whose
        endpoints have different colours gets the coin's 0/1 value in both
        [i, j] and [j, i]; the diagonal and the equal-coloured pairs stay 0. */
    method RandomAdjacency(coin: (nat, nat) -> bool)
      requires ColorsValid()
      modifies this`graph
      ensures fresh(graph) && Valid()
      ensures forall a, b :: 0 <= a < size && 0 <= b < size ==> graph[a, b] == Entry(colors, coin, a, b)
    {
      var m := new int[size, size]((a, b) => 0);
      for i := 0 to size
        invariant forall a, b :: 0 <= a < size && 0 <= b < size ==>
          m[a, b] == if a < i && b < i then Entry(colors, coin, a, b) else 0
      {
        for j := 0 to i
          invariant forall a, b :: 0 <= a < size && 0 <= b < size ==>
            m[a, b] == if (a < i && b < i) || (a == i && b < j) || (b == i && a < j)
                       then Entry(colors, coin, a, b) else 0
        {
          if colors[i] != colors[j] {
            var bit := if coin(i, j) then 1 else 0;
            m[i, j] := bit;
            m[j, i] := bit;
          }
        }
      }
      graph := m;
      forall a, b | 0 <= a < size && 0 <= b < size
        ensures graph[a, b] == graph[b, a]
      {
        EntrySymmetric(colors, coin, a, b);
      }
    }

    /** The label bytes of each node's colour, in node order. */
    function ColorsLabels(): (r: seq<seq<byte>>)
      reads this
      requires ColorsValid()
      ensures |r| == size
      ensures forall k :: 0 <= k < size ==> IsAscii(Labels[colors[k]]) && r[k] == EncodeAscii(Labels[colors[k]])
      ensures forall k :: 0 <= k < size ==> |r[k]| == 1
      ensures forall k, l :: 0 <= k < size && 0 <= l < size ==> (r[k] == r[l] <==> colors[k] == colors[l])
    {
      var cs := colors;
      var r := seq(|cs|, k requires 0 <= k < |cs| => LabelOf(cs[k]));
      assert forall k, l :: 0 <= k < size && 0 <= l < size ==> (r[k] == r[l] <==> cs[k] == cs[l]) by {
        forall k, l | 0 <= k < size && 0 <= l < size {
          LabelsDistinct(cs[k], cs[l]);
        }
      }
      r
    }
  }

  /** The encoded label of colour index `c`. */
  function LabelOf(c: int): (r: seq<byte>)
    requires 0 <= c < 3
    ensures IsAscii(Labels[c]) && r == EncodeAscii(Labels[c]) && |r| == 1
  {
    LabelsDistinct(c, c);
    EncodeAscii(Labels[c])
  }

  /** A graph of the default size, built from the given draws and coins. */
  method GenerateGraph(draws: seq<int>, coin: (nat, nat) -> bool) returns (g: Graph3Colorable)
    requires IsColoring(draws, DefaultSize)
    ensures fresh(g) && fresh(g.graph)
    ensures g.size == DefaultSize && g.colors == draws && g.Valid()
    ensures forall a, b :: 0 <= a < g.size && 0 <= b < g.size ==> g.graph[a, b] == Entry(g.colors, coin, a, b)
  {
    g := new Graph3Colorable(draws, coin, DefaultSize);
  }
}
