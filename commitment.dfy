/** The material committed to for each node: its colour label followed by its salt. */
module Commitment {
  import opened Bytes
  import opened ThreeColoring

  /** Length of the random salt drawn for each node. */
  const SaltLength: nat := 128

  /** Pairs the i-th label with the i-th salt and joins each pair into one byte
      string; like `zip`, it stops at the end of the shorter list. */
  function CommitColoring(labels: seq<seq<byte>>, salts: seq<seq<byte>>): (r: seq<seq<byte>>)
    ensures |r| == if |labels| < |salts| then |labels| else |salts|
    ensures forall k :: 0 <= k < |r| ==> r[k] == labels[k] + salts[k]
  {
    if |labels| == 0 || |salts| == 0 then []
    else [labels[0] + salts[0]] + CommitColoring(labels[1..], salts[1..])
  }

  /** With one-byte labels, a node's material splits back into its label (the
      first byte) and its salt (the rest). */
  lemma MaterialOpens(labels: seq<seq<byte>>, salts: seq<seq<byte>>, k: nat)
    requires k < |labels| && k < |salts| && |labels[k]| == 1
    ensures k < |CommitColoring(labels, salts)|
    ensures var m := CommitColoring(labels, salts)[k];
      |m| == 1 + |salts[k]| && m[..1] == labels[k] && m[1..] == salts[k]
  {
  }

  /** With one-byte labels, two nodes' material is equal exactly when both their
      labels and their salts are. */
  lemma MaterialInjective(labels: seq<seq<byte>>, salts: seq<seq<byte>>, k: nat, l: nat)
    requires k < |labels| && k < |salts| && |labels[k]| == 1
    requires l < |labels| && l < |salts| && |labels[l]| == 1
    ensures k < |CommitColoring(labels, salts)| && l < |CommitColoring(labels, salts)|
    ensures CommitColoring(labels, salts)[k] == CommitColoring(labels, salts)[l]
       <==> labels[k] == labels[l] && salts[k] == salts[l]
  {
    MaterialOpens(labels, salts, k);
    MaterialOpens(labels, salts, l);
  }

  /** The material built from a graph's labels and one 128-byte salt per node:
      one 129-byte entry per node, whose first byte tells the node's colour apart
      from every other colour and whose remaining bytes are the node's salt. */
  lemma GraphMaterial(g: Graph3Colorable, salts: seq<seq<byte>>)
    requires g.ColorsValid()
    requires |salts| == g.size && forall k :: 0 <= k < |salts| ==> |salts[k]| == SaltLength
    ensures var m := CommitColoring(g.ColorsLabels(), salts);
      |m| == g.size &&
      (forall k :: 0 <= k < g.size ==> |m[k]| == 1 + SaltLength && m[k][1..] == salts[k]) &&
      (forall k, l :: 0 <= k < g.size && 0 <= l < g.size ==> (m[k][0] == m[l][0] <==> g.colors[k] == g.colors[l]))
  {
  }
}
