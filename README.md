# Random 3-colourable graph and colouring commitment material

This project models the graph-generation core of a small zero-knowledge
3-colourability demonstration written in Python (`main.py`). The class
`Graphe3Coloriable` draws a random colour in {0, 1, 2} for each node, then
builds a symmetric adjacency matrix whose edges only ever join nodes of
different colours, so the drawn colouring is a valid 3-colouring of the graph
by construction. Each node's colour is turned into a one-byte label (`r`, `v`
or `b`), and `miseEnGageColoriage` joins every label with a random 128-byte
salt: the material a commitment to the colouring would be computed over.

Files:

- `bytes.dfy` (module `Bytes`): the `byte` type and the UTF-8 encoding of ASCII
  text that `.encode('utf-8')` performs on the labels.
- `graph.dfy` (module `ThreeColoring`): the class `Graph3Colorable` with its
  fields `size`, `colors` (a sequence the methods reassign) and `graph` (a
  two-dimensional array filled in place by the nested loop), the reference
  function `Entry` that says what each matrix cell ends up holding, the label
  encoding, and the size-20 generator.
- `commitment.dfy` (module `Commitment`): the zip-and-join of labels with salts
  and what can be read back from the result.

Randomness is not modelled as a distribution. It enters as parameters:

- `draws`, the sequence of colour indices `np.random.randint(0, 3, size)` returns,
  required to have `size` values in {0, 1, 2};
- `coin(i, j)`, the outcome of the test `np.random.rand() < 0.5` made for the
  pair (i, j) with j < i;
- `salts`, the byte strings `np.random.bytes(128)` returns.

The source stores the matrix as floats (`np.zeros`); here entries are integers,
and the model proves that they are always 0 or 1.

## Model

| member | source | states |
|---|---|---|
| `ThreeColoring.Graph3Colorable.constructor` | main.py:10-13 | stores the size (20 nodes when none is given, as in `__init__`'s default), takes the drawn colours and produces a matrix satisfying `Valid()` (symmetric, 0/1 entries, zero diagonal, edges only between differently coloured nodes) whose every cell equals `Entry` |
| `ThreeColoring.Graph3Colorable.RandomColors` | main.py:15-16 | the new colouring is exactly the draws: `size` colour indices, each in {0, 1, 2} |
| `ThreeColoring.Graph3Colorable.RandomAdjacency` | main.py:18-23 | starting from a fresh zero matrix, the nested loop over pairs j < i leaves a size-by-size matrix that is symmetric, has a zero diagonal, holds only 0 and 1, connects only differently coloured nodes, and has each cell equal to `Entry` for the colouring and the coins |
| `ThreeColoring.Entry` | main.py:19-23 | every cell is 0 or 1; the diagonal is 0; a 1 only joins different colours; for j < i the cell [i, j] is 1 exactly when the colours of i and j differ and the coin for (i, j) came up |
| `ThreeColoring.EntrySymmetric` | main.py:23 | each unordered pair is decided once, so cell [a, b] equals cell [b, a] |
| `ThreeColoring.LabelsDistinct` | main.py:6 | the three labels are ASCII, encode to one byte each, and two colour indices have the same encoded label exactly when they are equal |
| `ThreeColoring.LabelOf` | main.py:30 | the encoded label of a colour index is the UTF-8 encoding of its entry in the label list and is one byte long |
| `ThreeColoring.Graph3Colorable.ColorsLabels` | main.py:25-30 | one label per node, in node order; each is the encoding of the label of the node's colour and is one byte long; two nodes get the same label exactly when they have the same colour |
| `ThreeColoring.GenerateGraph` | main.py:41-42 | builds a fresh 20-node graph from the draws and coins, satisfying `Valid()` with every cell equal to `Entry` |
| `Bytes.EncodeAscii` | main.py:30 | `.encode('utf-8')` of ASCII text: one byte per character, equal to its code point; `DecodeEncode` and `EncodeAsciiInjective` prove that nothing is lost |
| `Bytes.DecodeEncode` | main.py:30 | reading the bytes back as characters gives the original string: the UTF-8 encoding of ASCII text loses nothing |
| `Bytes.EncodeAsciiInjective` | main.py:30 | two ASCII strings have the same UTF-8 encoding exactly when they are the same string |
| `Commitment.CommitColoring` | main.py:44-47 | the result has as many entries as the shorter of the two lists, and entry k is label k followed by salt k |
| `Commitment.MaterialOpens` | main.py:46 | with a one-byte label, entry k is one byte longer than salt k, its first byte is label k and the rest is salt k |
| `Commitment.MaterialInjective` | main.py:46 | with one-byte labels, two entries are equal exactly when both their labels and their salts are equal |
| `Commitment.GraphMaterial` | main.py:50-56 | for a graph's labels and one 128-byte salt per node, there is one 129-byte entry per node, its tail is the node's salt, and two entries have the same first byte exactly when the nodes have the same colour |

## Left out

- Random number generation itself (`np.random.randint`, `np.random.rand`, `np.random.bytes`): modelled as the parameters `draws`, `coin` and `salts`, not as probability distributions; the coin's fixed probability 0.5 is therefore not modelled.
- The printing of the joined list in `miseEnGageColoriage` (main.py:45): output only; the model returns the list instead.
- `__str__` (main.py:32-37): text rendering of the matrix for debugging.
- Hashing: `hashlib` is imported (main.py:2) but never called, so no digest is computed and none is modelled, despite the comment at main.py:55.
- The module-level script (main.py:50-56) runs as plumbing; only what it builds is stated, by `Commitment.GraphMaterial`.
- A negative `size`: numpy raises on it; the model takes `size` as a natural number. The source performs no other size check, so there is no size error in the model.
- The float representation of the matrix: entries are integers.
- A prover, a verifier, challenges, verification and round counting: none of these exists in `main.py`.
