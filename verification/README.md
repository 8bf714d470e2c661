# Equalizer examples: a verified model

A Dafny model of the algorithms in Equalizer's example applications, and proofs of what they
promise.

* **eqPly mesh pipeline.** A triangle mesh is sorted along an axis and split at the median,
  recursively; each leaf re-indexes its triangles into shared buffers with 16-bit local
  indices; bounding spheres and [0,1] ranges are computed bottom-up; channels draw the tree
  with an explicit stack, restricted to a range and a frustum; the tree is written to a binary
  file, read back, and shipped to other machines as ID-linked objects.
  Modules `MeshTypes`, `VertexData`, `Spheres`, `KdSpec` (the build as a function on values),
  `KdProps`, `KdRanges`, `KdSpheres` (what it guarantees), `KdTree`, `MeshRoot` (the objects and
  their in-place methods), `CullDraw`, `MeshTheorems`, `KdSplits` (the finished model), `MeshLimits` and
  `MeshTwins` (a mesh beyond 16 bits, one that its spheres lose), `Bytes`, `MeshFile`, `MeshLayout`, `MeshFileIO`, `Distribution`.
* **eVolve volume rendering.** `SliceClipping` (table-driven plane/slab intersection),
  `FramesOrderer` (compositing order of slabs), `Modelview` (the matrices both read),
  `VolumeTexture` (padded texture loading), `TextureCoordinates` (where the shader finds it).
* **Two protocols.** `AsyncFetcher` (eqAsync: a fetcher and a pipe thread exchange textures over
  two queues), `NBodyFrameData`, `NBodyBarrier`, `NBodySlices`, `NBodyMemory` (eqNBody: the commit
  barrier and the replicated arrays), `NBodyRuns`, `NBodySync`, `NBodyContents` (the runs of all nodes together),
  `NBodyLate`, `NBodyAhead` (two runs that go wrong).
* **PLY files.** `PlyItems`, `PlyElements`, `PlyFileIO` (binary elements), `PlyHeader`,
  `PlyHeaderIO`, `PlyHeaderLimits`, `PlyVocabulary` (the text header), `PlyOtherProps` (packing of unrequested
  properties).
* **UDT sequence numbers.** `SequenceNumbers`.

`Hiding` holds one constant predicate: a definition under it is unfolded only where a proof asks.
`Sequences` holds the associative law of concatenation.

Code that updates objects or arrays in place is modelled by classes and methods with loops. Each
such method is proved equal to a function on values, and the properties are proved of that
function. Floats are exact reals, or bit patterns where only their bytes matter; `sqrt` and
`std::sort` are parameters with their defining properties. `dafny verify dfyconfig.toml` checks
everything.

The results to read first:

* `MeshTheorems.EveryTriangleOnce`: channels that share [0,1] in any way and do not cull emit
  every triangle of the input mesh exactly once, with its vertices, normals, colours and corner
  order. `MeshTheorems.VisibleIsDrawn`: with culling, they still draw every triangle of which any
  point is in the frustum.
  `MeshTheorems.ModelShares`: every node's range is its share of the triangles, and the tree is
  balanced. `KdSplits.ModelDivides`: exactly which parts are split, along which axis.
* `MeshFile.FileRoundTrip` and `MeshFile.FileReprints`: the binary format round-trips both ways;
  `MeshLayout` says where each number stands.
* `SliceClipping.CornersOnPlaneAndEdge`, `EveryCrossingFound`, `NeighboursShareFace`: the edge
  tables produce the right polygon for every view.
* `FramesOrderer.PerspectiveBackToFront`: back-to-front for every eye position.
* `AsyncFetcher.EveryTextureOnce`, `AllDeletedAtTheEnd`, `NextIsShown`, `ExitTerminates`: every
  interleaving.
* `NBodySync.BarrierSynchronises`: in every run of nodes that register, map, see broadcasts,
  synchronise, compute and commit in any order, two nodes that have mapped everybody and synchronise
  to the same broadcast have equal arrays afterwards, whatever the other nodes commit meanwhile.
  `NBodyContents.BroadcastShows`: and these are the devices' bytes, slice by slice.
* `PlyElements.ElementRoundTrip`, `PlyHeader.HeaderRoundTrip`: reading undoes writing.
  `PlyOtherProps.OtherPropsSurvive`: writing undoes reading, unrequested properties included.

Where a promise does not hold of the code, the exact condition is proved:

* A node sphere encloses two children with different centres exactly when neither child sphere
  lies in the interior of the other (`Spheres.NodeSphereEncloses`; `Spheres.NestedChildEscapes` is a
  failing input). With equal centres it encloses a child exactly when the child's radius is at most
  the smaller radius times the length of what `normalize` makes of the zero vector
  (`Spheres.CoincidentCentres`; with zero, two equal spheres fail: `Spheres.EqualSpheresEscape`).
  Two copies of one triangle are a mesh of which a sound sphere test may then draw nothing although
  it is in sight (`MeshTwins.TwinsVanish`).
* 16-bit indices are right exactly when a leaf has fewer than 2^16 different vertices
  (`KdProps.ShortIndicesSuffice`). The comment on `LEAF_SIZE` (examples/eqPly/typedefs.h:129-132)
  suggests that the constant ensures this, but `_subdivide` halves first, so a leaf may hold up
  to 43691 triangles (`KdSplits.ModelDivides`), and 349536 triangles without common vertices break it
  (`MeshLimits.SomeMeshBreaks`).
* n-body slices are a partition of the arrays exactly when every range bound falls on a float
  (`NBodySlices.SlicesPartition`; `NBodySlices.ThirdsOverlap` is a failing input).
* n-body nodes map once, with the table they have then (examples/eqNBody/channel.cpp:89-94). Later
  calls of `syncMemory` stay inside its vector exactly when every row of the current table was there
  when the node mapped; a node that was not in that table itself has one proxy to spare
  (`NBodySync.SyncInBounds`; `NBodyLate.LateProxyOverruns` is a run that reads outside).
* An n-body node that synchronises to a broadcast has exactly the commits that it stands for if and
  only if no proxy was beyond it before (`NBodyMemory.SyncReachesTable`). A mapping at a commit that
  the broadcast does not know of yet breaks this: `NBodyAhead.AheadDiffers` is a run in which two
  nodes synchronise to one broadcast and have different arrays.
* A frame start discards the reports of n-body proxies that came before it
  (`NBodyBarrier.FrameStartForgets`).
* A big-endian PLY `ushort` comes back exactly when its two bytes are equal, because it is
  swapped before it is assigned (`PlyItems.BigEndianUShort`).
* A PLY header with valid types comes back from its file exactly when every name is a word, every
  text is free of leading spaces, tabs, line ends and zero characters, and every line fits the
  buffer, texts with a character to spare (`PlyHeaderLimits.HeaderSurvives`;
  `PlyHeaderLimits.CommentsSurvive` for the comments alone). A comment of 4090 characters and one
  with a line end are failing inputs (`LongCommentLost`, `BrokenCommentLost`).
* `calcMinPow2` is documented to return a power of two *greater* than its argument; it does so
  exactly for arguments up to 2^31 that are neither zero nor powers of two
  (`VolumeTexture.GreaterExactly`; `VolumeTexture.FourStaysFour` is a failing input).
* For any slice distance, all planes through the slab are drawn exactly when the first plane that is
  not drawn lies beyond the front vertex (`SliceClipping.SlicesDrawnIff`;
  `SliceClipping.WideSlicesMissed` is a failing input). The distances
  that the renderer computes satisfy it for view vectors not longer than one
  (`SliceClipping.RendererDrawsAll`), which all volumes have (`Modelview.ViewVectorShort`).
* The orthographic order of slabs, which looks at the rotation only, is back to front exactly when
  the viewer's side in the volume is the one that the rotation tells
  (`FramesOrderer.OrthographicBackToFront`). A head transform that keeps the eye axis ensures this
  (`FramesOrderer.StraightHead`); a head turned by half a circle is a failing input
  (`FramesOrderer.HalfTurnedHead`).
* The length of a full cycle of 31-bit sequence numbers overflows (`SequenceNumbers.LengthOverflows`).
* Two volume slabs that meet inside the first layer share it (`VolumeTexture.SlabsMeet`).
* The texture coordinates of a volume slab are documented as correct. In depth they are so exactly if
  the slab's range consists of whole layers and starts with the first layer or, beyond 0.0001, not
  before the third: the border is always taken to have two layers, but before the second layer there
  is only one (`TextureCoordinates.DepthInPlaceIff`; `SecondLayerMisplaced` is a failing input).

## Model

| member | source | states |
|---|---|---|
| `VertexData.StrictWeakOrder` | examples/eqPly/vertexData.cpp:382-416 | the triangle comparison is asymmetric and transitive, and two triangles are incomparable exactly when their centroids agree, which is an equivalence; for every axis |
| `VertexData.SmallerSumFirst` | examples/eqPly/vertexData.cpp:387-414 | three times the key is the sum of the corners' coordinates; from the given axis on, the first axis on which the sums of the corners' coordinates differ decides, and the smaller sum comes first |
| `VertexData.Compare` | examples/eqPly/vertexData.cpp:387-414 | the do-while over the axes decides that order |
| `VertexData.SorterExists` | examples/eqPly/vertexData.cpp:421-428 | what is required of std::sort can be met |
| `VertexData.Data.Sort` | examples/eqPly/vertexData.cpp:421-428 | the given range ends sorted and a permutation of what it was, and the rest of the array is unchanged |
| `VertexData.HullTight` | examples/eqPly/vertexData.cpp:304-330 | the bounding box loop ends with the least box around all corners |
| `VertexData.TightUnique` | examples/eqPly/vertexData.cpp:304-330 | there is only one such box for a set of points |
| `VertexData.LongestAxisPermutation` | examples/eqPly/vertexData.cpp:304-341 | the longest axis depends on the triangles only, not on their order |
| `VertexData.LongestAxisIs` | examples/eqPly/vertexData.cpp:332-341 | the chosen axis is a longest side of the least box around the triangles, and every earlier side is shorter |
| `VertexData.LongestAxisOnly` | examples/eqPly/vertexData.cpp:332-341 | only one axis is that |
| `VertexData.Data.GetLongestAxis` | examples/eqPly/vertexData.cpp:304-341 | the loop finds the longest side of the least box, the first if there are several |
| `Spheres.ExpandKeeps` | examples/eqPly/vertexBufferLeaf.cpp:135-148 | one expansion encloses the old sphere and the new point |
| `Spheres.ExpandLeast` | examples/eqPly/vertexBufferLeaf.cpp:135-148 | and no sphere around the old one and the point is smaller |
| `Spheres.BallConvex` | examples/eqPly/vertexBufferRoot.cpp:112-124 | a triangle with its corners in a sphere lies in the sphere with all its points |
| `Spheres.NodeSphereEncloses` | examples/eqPly/vertexBufferNode.cpp:112-124 | for different centres, the node sphere encloses a child if and only if that child does not strictly contain its sibling |
| `Spheres.NodeSphereLeast` | examples/eqPly/vertexBufferNode.cpp:112-124 | for different centres, no sphere around both children is smaller than the node sphere |
| `Spheres.NestedChildEscapes` | examples/eqPly/vertexBufferNode.cpp:112-124 | a ball of radius 10 with a small sibling inside it sticks out of the node sphere |
| `Spheres.CoincidentCentres` | examples/eqPly/vertexBufferNode.cpp:112-124 | for equal centres, whatever normalize makes of the zero vector, the node sphere encloses a child if and only if its radius is at most the smaller radius times that length |
| `Spheres.EqualSpheresEscape` | examples/eqPly/vertexBufferNode.cpp:112-124 | if zero stays zero, two equal unit spheres stick out of their node sphere |
| `Spheres.SameSphere` | examples/eqPly/vertexBufferNode.cpp:112-124 | if zero stays zero, the node sphere of two equal spheres is their centre with radius 0 |
| `KdSpec.FirstsNoRepeats` | examples/eqPly/vertexBufferLeaf.cpp:53-70 | a leaf stores each of its vertices once |
| `KdSpec.RenumberAt` | examples/eqPly/vertexBufferLeaf.cpp:53-72 | the local index of a corner is the position of its vertex in the order of first use |
| `KdSpec.RulesExist` | examples/eqPly/vertexBufferNode.cpp:49-101 | the rules that the build takes as parameters can be met |
| `KdSpec.BuildPermutes` | examples/eqPly/vertexBufferNode.cpp:55-101 | the build leaves a rearrangement of the triangles it was given |
| `KdProps.BuildExtends` | examples/eqPly/vertexBufferLeaf.cpp:41-75 | building a subtree only appends to the global buffers |
| `KdProps.LeafFaithful` | examples/eqPly/vertexBufferLeaf.cpp:41-75 | a leaf's indices, dereferenced through its vertex start, give its triangles' vertices, normals, colours and corner order, in buffers that grew since |
| `KdProps.TreeFaithful` | examples/eqPly/vertexBufferNode.cpp:55-101 | all leaves left to right give the final triangle array, if each has fewer than 2^16 different vertices |
| `KdProps.ShortIndicesSuffice` | examples/eqPly/vertexBufferLeaf.cpp:47-75 | every stored 16-bit index is below the stored 16-bit vertex count if and only if the leaf has fewer than 2^16 different vertices |
| `KdProps.BuildKdOrdered` | examples/eqPly/vertexBufferNode.cpp:66-99 | in the final array nothing under a right child precedes anything under its left sibling on the node's axis, at every node and in spite of all later sorts |
| `KdRanges.BuildTiles` | examples/eqPly/vertexBufferLeaf.cpp:47-73 | the leaves' index extents follow each other without gaps and cover all indices |
| `KdRanges.ShareIsFloorOrCeiling` | examples/eqPly/vertexBufferNode.cpp:66-99 | the balance measure means floor or ceiling of n divided by 2^depth |
| `KdRanges.BuildBalanced` | examples/eqPly/vertexBufferNode.cpp:66-99 | every node at depth k holds floor(n/2^k) or ceil(n/2^k) triangles |
| `KdRanges.BuildHalved` | examples/eqPly/vertexBufferNode.cpp:66-84 | the left child holds half of the triangles rounded down, the right child the others, at every node |
| `KdRanges.LeafLimit` | examples/eqPly/vertexBufferNode.cpp:49-53 | a part is not split further if and only if it has at most one triangle, or, from depth 3 on, at most 43691 |
| `KdRanges.BuildLeafSizes` | examples/eqPly/vertexBufferNode.cpp:49-101 | every leaf has 1 to 43691 triangles |
| `KdRanges.RangeIsShare` | examples/eqPly/vertexBufferNode.cpp:136-144 | after updateRange a node's range is its share [first/total, end/total] of the index positions |
| `KdRanges.ThirdShare` | examples/eqPly/vertexBufferLeaf.cpp:189-192 | three indices per triangle: a share of indices is the same share of triangles |
| `KdRanges.BuildSpans` | examples/eqPly/vertexBufferNode.cpp:66-99 | the build gives the left child the triangles [a, a+h) and the right child those that follow, down to leaves of three indices per triangle |
| `KdRanges.SpansTile` | examples/eqPly/vertexBufferLeaf.cpp:47-73 | a tree over the triangles [a, a+k) covers exactly the index positions [3a, 3(a+k)) |
| `KdRanges.SpansShares` | examples/eqPly/vertexBufferNode.cpp:136-144 | after updateRange every node over the triangles [a, a+k) of n has the range [a/n, (a+k)/n] |
| `KdSpheres.GrownHolds` | examples/eqPly/vertexBufferLeaf.cpp:124-154 | the expansion loop ends with every point inside the sphere |
| `KdSpheres.HullSphere` | examples/eqPly/vertexBufferLeaf.cpp:113-122 | the sphere that the expansion starts from is centred in the least box and its diameter is the longest side |
| `KdSpheres.SpheresSound` | examples/eqPly/vertexBufferNode.cpp:105-132 | every node's sphere holds all vertices below it, if at each node the centres differ and neither child contains the other |
| `KdSpheres.NotNestedIff` | examples/eqPly/vertexBufferNode.cpp:112-124 | for different centres that condition holds exactly if the node sphere encloses both children |
| `KdSpheres.BoxesTight` | examples/eqPly/vertexBufferLeaf.cpp:93-111 | every leaf ends with the least box around its vertices |
| `KdTree.BufferData.Clear` | examples/eqPly/vertexBufferData.h:45-51 | empties all four buffers |
| `KdTree.TreeNode.SetupTree` | examples/eqPly/vertexBufferNode.cpp:55-101 | the in-place recursion over objects, array and buffers computes the build and touches only its part of the array |
| `KdTree.TreeNode.SetupNode` | examples/eqPly/vertexBufferNode.cpp:55-101 | sort, split at the median, build left then right |
| `KdTree.TreeNode.SetupLeaf` | examples/eqPly/vertexBufferLeaf.cpp:41-75 | sort and store a leaf |
| `KdTree.TreeNode.Reindex` | examples/eqPly/vertexBufferLeaf.cpp:47-75 | the nested loops with the newIndex map append exactly the vertices of first use and the local indices |
| `KdTree.TreeNode.AddCorner` | examples/eqPly/vertexBufferLeaf.cpp:53-72 | one corner: a new vertex if it was not seen, and its index |
| `KdTree.TreeNode.UpdateRange` | examples/eqPly/vertexBufferNode.cpp:136-144 | sets the ranges of the whole subtree and nothing else |
| `KdTree.TreeNode.UpdateBoundingSphere` | examples/eqPly/vertexBufferNode.cpp:105-132 | sets the spheres and boxes of the whole subtree and nothing else |
| `KdTree.TreeNode.LeafBoxAndSphere` | examples/eqPly/vertexBufferLeaf.cpp:86-177 | the leaf's loops compute the least box and the expanded sphere |
| `MeshRoot.Root.SetupTree` | examples/eqPly/vertexBufferRoot.cpp:56-79 | the root's tree, buffers and triangle array are those of the finished model |
| `MeshTheorems.ModelFaithful` | examples/eqPly/vertexBufferRoot.cpp:56-79 | the finished model emits the final triangle array, which is the input rearranged |
| `MeshTheorems.SmallMeshIndexable` | examples/eqPly/vertexBufferLeaf.cpp:66-66 | a mesh with fewer than 2^16 vertices never breaks the assertion on the leaf's vertex count |
| `MeshLimits.CrowdBreaks` | examples/eqPly/vertexBufferNode.cpp:49-101 | triangles without common vertices, just too many for the split test to halve again, end in a leaf that needs more than 16 bits; for every sort |
| `MeshLimits.SomeMeshBreaks` | examples/eqPly/vertexBufferLeaf.cpp:66-66 | 349536 triangles without common vertices break the assertion on the leaf's vertex count, however they are placed |
| `MeshTheorems.ModelRanges` | examples/eqPly/vertexBufferNode.cpp:136-144 | the root's range is [0,1], every node's range is the hull of its children's, and every leaf starts in [0,1) |
| `MeshTheorems.ModelShares` | examples/eqPly/vertexBufferRoot.cpp:56-79 | in the finished model every node's range is its share of all triangles, every node at depth k holds the floor or ceiling of n/2^k, and every leaf 1 to 43691 triangles |
| `KdSplits.ModelDivides` | examples/eqPly/vertexBufferNode.cpp:49-101 | in the finished model a part at level 1 to 3 is a node exactly if it has more than one triangle, and below exactly if it has more than 43691; every node is split in halves along the longest axis of its triangles, and every leaf is sorted along x |
| `KdSplits.ManyLeaves` | examples/eqPly/vertexBufferNode.cpp:49-53 | so a model has at least sixteen leaves, or one for every triangle |
| `MeshTheorems.EveryTriangleOnce` | examples/eqPly/vertexBufferRoot.cpp:86-170 | any partition of [0,1] over channels without culling emits every input triangle exactly once in total |
| `MeshTheorems.CulledIsUnseen` | examples/eqPly/vertexBufferRoot.cpp:86-170 | in the finished model, if at each node the children's spheres have different centres and neither contains the other, every leaf of a channel's share is drawn or no point of its triangles is in the frustum |
| `MeshTheorems.VisibleIsDrawn` | examples/eqPly/vertexBufferRoot.cpp:86-170 | under that condition, channels that share [0,1] in any way and cull draw every triangle of the input mesh of which any point is in the frustum |
| `MeshTwins.TwinsVanish` | examples/eqPly/vertexBufferNode.cpp:105-132 | two copies of a triangle with different corners: the root sphere is a point, and with some sound test no channel draws anything although a corner is in the frustum |
| `CullDraw.CullDraw` | examples/eqPly/vertexBufferRoot.cpp:86-170 | the stack loop terminates and draws what the recursive visit draws, in that order |
| `CullDraw.Examine` | examples/eqPly/vertexBufferRoot.cpp:112-168 | one candidate: what it draws plus what its pushed children draw is its visit, and the stack's nodes shrink |
| `CullDraw.DrawnOrLost` | examples/eqPly/vertexBufferRoot.cpp:112-168 | every leaf whose range starts in the channel's range is drawn once or left out by culling, and no other leaf is drawn |
| `CullDraw.DrawsItsShare` | examples/eqPly/vertexBufferRoot.cpp:112-168 | without culling a channel draws exactly the leaves whose range starts in its own |
| `CullDraw.SharesAddUp` | examples/eqPly/vertexBufferRoot.cpp:112-168 | channels with adjoining ranges together draw what one channel with the joined range draws |
| `CullDraw.EveryLeafOnce` | examples/eqPly/vertexBufferRoot.cpp:86-170 | a partition of [0,1] draws every leaf exactly once |
| `CullDraw.LostUnseen` | examples/eqPly/vertexBufferRoot.cpp:112-168 | with sound spheres and a sound sphere test, no point of any triangle that culling leaves out is in the frustum |
| `CullDraw.SharedOrUnseen` | examples/eqPly/vertexBufferRoot.cpp:112-168 | every leaf of the joint share of channels that cull is drawn by one of them, or no point of its triangles is in the frustum |
| `Bytes.NumberOfDigits` | examples/eqPly/typedefs.h:186-190 | a number that fits its width comes back from memory |
| `Bytes.PutAllOfGetAll` | examples/eqPly/typedefs.h:186-190 | a record's bytes are determined by its numbers, in both byte orders |
| `MeshFile.ParseOfPrint` | examples/eqPly/vertexBufferNode.cpp:165-209 | reading a printed tree gives it back and stops at the bytes after it |
| `MeshFile.PrintOfParse` | examples/eqPly/vertexBufferNode.cpp:165-209 | bytes accepted as a tree are the print of that tree |
| `MeshFile.LeafRoundTrip` | examples/eqPly/vertexBufferLeaf.cpp:356-388 | reading a printed leaf gives it back |
| `MeshFile.VectorOfPrint` | examples/eqPly/vertexBufferData.h:79-103 | reading a printed vector gives it back and stops after it |
| `MeshFile.PrintOfVector` | examples/eqPly/vertexBufferData.h:79-103 | bytes accepted as a vector are its print |
| `MeshFile.BuffersRoundTrip` | examples/eqPly/vertexBufferData.h:54-70 | the four buffers come back in order |
| `MeshFile.BuffersReprint` | examples/eqPly/vertexBufferData.h:54-70 | bytes accepted as buffers are their print |
| `MeshFile.FileRoundTrip` | examples/eqPly/vertexBufferRoot.cpp:430-457 | reading a written file followed by any bytes gives buffers and tree back and stops exactly there |
| `MeshFile.FileReprints` | examples/eqPly/vertexBufferRoot.cpp:430-457 | any accepted prefix re-prints to itself |
| `MeshLayout.FileLayout` | examples/eqPly/vertexBufferRoot.cpp:449-457 | a file starts with 0x0116 and 0x07 in a word each, then the buffers, then the tree |
| `MeshLayout.NodeLayout` | examples/eqPly/vertexBufferBase.h:75-80 | an inner node is the tag 0xde in a word and six floats at fixed places: centre, radius and range |
| `MeshLayout.ChildrenLayout` | examples/eqPly/vertexBufferNode.cpp:202-209 | behind them the left child, then the right one |
| `MeshLayout.LeafLayout` | examples/eqPly/vertexBufferLeaf.cpp:377-388 | a leaf is the tag 0xef, twelve floats, a word, two bytes and two words, each at its place |
| `MeshLayout.BuffersLayout` | examples/eqPly/vertexBufferData.h:54-60 | the four vectors follow each other, of twelve, four, twelve and two bytes an item |
| `MeshLayout.VectorLayout` | examples/eqPly/vertexBufferData.h:79-88 | a vector is its length in a word, then its items |
| `MeshLayout.PointAt` | examples/eqPly/typedefs.h:72-74 | the coordinates of point i are three floats from byte 12i on: x, y, z |
| `MeshLayout.ColorAt` | examples/eqPly/typedefs.h:73-73 | the parts of colour i are four bytes from byte 4i on: red, green, blue, alpha |
| `MeshLayout.IndexAt` | examples/eqPly/typedefs.h:78-78 | index i has the two bytes from byte 2i on |
| `MeshLayout.FileRefused` | examples/eqPly/vertexBufferRoot.cpp:432-443 | a file is refused for its version exactly if its first word is not 0x0116, and for its type if the second is not 0x07 |
| `MeshLayout.TagDecides` | examples/eqPly/vertexBufferNode.cpp:165-198 | a child with the tag 0xde is read as a node, one with 0xef as a leaf, any other is refused |
| `MeshFileIO.OutStream.WriteVector` | examples/eqPly/vertexBufferData.h:79-88 | appends length and items |
| `MeshFileIO.OutStream.WriteTree` | examples/eqPly/vertexBufferNode.cpp:202-209 | appends the tree's print, node before children |
| `MeshFileIO.OutStream.WriteFile` | examples/eqPly/vertexBufferRoot.cpp:449-457 | appends version, root tag, buffers and tree |
| `MeshFileIO.Memory.ReadVector` | examples/eqPly/vertexBufferData.h:91-103 | advances the cursor over a vector as the parser does |
| `MeshFileIO.Memory.ReadLeaf` | examples/eqPly/vertexBufferLeaf.cpp:356-374 | reads a leaf or throws, as the parser does |
| `MeshFileIO.Memory.ReadNode` | examples/eqPly/vertexBufferNode.cpp:165-198 | reads a node, choosing each child's class by the tag that follows, or throws |
| `MeshFileIO.Memory.ReadFile` | examples/eqPly/vertexBufferRoot.cpp:430-446 | reads a whole model or throws the error of the first violated check |
| `Distribution.DecodeOfNode` | examples/eqPly/vertexBufferDist.cpp:144-244 | applyInstanceData of an inner node's or root's stream extracts what getInstanceData put in |
| `Distribution.DecodeOfLeaf` | examples/eqPly/vertexBufferDist.cpp:144-244 | the same for a leaf, which is told apart by its zero child IDs |
| `Distribution.ItemsOfNode` | examples/eqPly/vertexBufferDist.cpp:144-244 | whatever stream is extracted as an inner node is what getInstanceData writes for it, and both its child IDs differ from zero |
| `Distribution.ItemsOfLeaf` | examples/eqPly/vertexBufferDist.cpp:144-244 | a stream extracted as a leaf has a child ID of zero and is otherwise what getInstanceData writes for it |
| `Distribution.DescribesMore` | examples/eqPly/vertexBufferDist.cpp:88-98 | registering further objects does not disturb a registered tree |
| `Distribution.DescribesOne` | examples/eqPly/vertexBufferDist.cpp:178-244 | an ID determines the whole tree below it |
| `Distribution.Registry.RegisterTree` | examples/eqPly/vertexBufferDist.cpp:88-98 | after registration the objects describe the tree, under a new ID, and all older objects are kept |
| `Distribution.MapObject` | examples/eqPly/vertexBufferDist.cpp:178-244 | mapping terminates and rebuilds exactly the described tree and root data |
| `Distribution.LoadModel` | examples/eqPly/vertexBufferDist.cpp:113-129 | yields the described model, or nothing for an unknown ID |
| `Distribution.Distribute` | examples/eqPly/vertexBufferDist.cpp:88-129 | register, then load: the same shape, buffers, extents, boxes, spheres, ranges and name |
| `SliceClipping.RowIs` | examples/eVolve/sliceClipping.cpp:35-54 | each row of the vertex table flips the front vertex's three axis bits in one fixed pattern and ends at the opposite vertex |
| `SliceClipping.TablesListEdges` | examples/eVolve/sliceClipping.cpp:46-70 | every entry of the edge tables is an edge of the slab |
| `SliceClipping.TablesListAll` | examples/eVolve/sliceClipping.cpp:46-70 | all twelve edges are in the tables, directed away from the front vertex |
| `SliceClipping.HitsIff` | examples/eVolve/sliceClipping.cpp:150-161 | on an edge that does not rise the lambda test succeeds exactly for planes between its ends, and the point is on the plane |
| `SliceClipping.AlwaysHits` | examples/eVolve/sliceClipping.cpp:129-167 | for a plane between back and front vertex each of the six searches finds a hit |
| `SliceClipping.HitsExactly` | examples/eVolve/sliceClipping.cpp:129-167 | for every slab and view vector, a search finds a hit if and only if the slab has some depth along the view vector and the plane lies between the back and the front vertex |
| `SliceClipping.MissedIsEmpty` | examples/eVolve/sliceClipping.cpp:135-166 | for every other plane, and for a slab without depth along the view vector, all six points are the origin |
| `SliceClipping.CornersOnPlaneAndEdge` | examples/eVolve/sliceClipping.cpp:129-167 | each of the six points lies on the plane and on an edge of the slab |
| `SliceClipping.EveryCrossingFound` | examples/eVolve/sliceClipping.cpp:129-167 | every edge that the plane crosses contributes its crossing point |
| `SliceClipping.NeighboursShareFace` | examples/eVolve/sliceClipping.cpp:56-70 | for a plane through no vertex, consecutive points lie on a common face, so the six points run around the slab |
| `SliceClipping.AllSlicesDrawn` | examples/eVolve/rawVolModelRenderer.cpp:49-65 | for a view vector not longer than one and any slice distance up to 0.13, every plane that meets the slab is among the drawn slices |
| `SliceClipping.SlicesDrawnIff` | examples/eVolve/rawVolModelRenderer.cpp:49-65 | for every slice distance, every plane that meets the slab is drawn if and only if the first plane beyond the drawn ones lies in front of the front vertex |
| `SliceClipping.RendererDrawsAll` | examples/eVolve/rawVolModelRenderer.cpp:175-187 | for a view vector not longer than one, any resolution and any precision, the renderer draws every plane that meets the slab |
| `SliceClipping.VolumeDrawn` | examples/eVolve/rawVolModelRenderer.cpp:175-187 | so it does for every volume, head transform and rotation |
| `Modelview.ViewVectorShort` | examples/eVolve/channel.cpp:213-224 | row 2 of head * scale * rotation has at most length one when the scaling is at most one |
| `Modelview.ProportionsInUnit` | examples/eVolve/rawVolModel.cpp:328-340 | the proportions of a volume are positive and at most one, and the largest is one |
| `Modelview.ProportionsKept` | examples/eVolve/rawVolModel.cpp:328-340 | they are to each other as the sizes times the scaling in the header |
| `SliceClipping.WideSlicesMissed` | examples/eVolve/rawVolModelRenderer.cpp:49-65 | a slice distance of another kind leaves out a plane that meets the slab |
| `SliceClipping.FirstPlane` | examples/eVolve/sliceClipping.cpp:122-125 | the first plane is the least multiple of the slice distance that is not behind the back vertex |
| `SliceClipping.SliceClipper.UpdatePerFrameInfo` | examples/eVolve/sliceClipping.cpp:73-126 | stores the slab's vertices, finds a vertex of largest distance and the first plane |
| `SliceClipping.SliceClipper.FindFront` | examples/eVolve/sliceClipping.cpp:110-120 | the max-search ends at a vertex with the largest distance |
| `SliceClipping.SliceClipper.GetPosition` | examples/eVolve/sliceClipping.cpp:129-167 | the loop with break returns the point of the first edge that the plane hits, or the origin |
| `FramesOrderer.SorterExists` | examples/eVolve/framesOrderer.cpp:34-43 | what is required of std::sort can be met |
| `FramesOrderer.CosineTellsSide` | examples/eVolve/framesOrderer.cpp:59-78 | for a modelview matrix and the transpose of its inverse, the cosine at a slab's end is positive exactly when that end lies above the eye |
| `FramesOrderer.NormalIsDual` | examples/eVolve/channel.cpp:226-229 | the slab normal read from the transposed inverse has product one with the axis of the slabs, and the eye's height is that of the inverse's image of the origin |
| `FramesOrderer.OrderFrames` | examples/eVolve/framesOrderer.cpp:46-106 | the in-place sort, search and copy compute the specified order |
| `FramesOrderer.FindMinPos` | examples/eVolve/framesOrderer.cpp:84-88 | finds the last pair of positive neighbours, or the largest size_t |
| `FramesOrderer.Rearrange` | examples/eVolve/framesOrderer.cpp:90-104 | moves the frames up to minPos to the end and puts the others before them in reverse |
| `FramesOrderer.PairSplits` | examples/eVolve/framesOrderer.cpp:84-91 | after the wrapping increment minPos separates the slabs above the eye from those below |
| `FramesOrderer.PerspectiveBackToFront` | examples/eVolve/framesOrderer.cpp:59-104 | for every modelview matrix and all slabs that do not overlap the result is a permutation in which no slab precedes one that it hides from the eye, which is where the inverse takes the origin |
| `FramesOrderer.ExtraIrrelevant` | examples/eVolve/framesOrderer.cpp:80-82 | the order does not depend on the sample added last |
| `FramesOrderer.OrthographicBackToFront` | examples/eVolve/framesOrderer.cpp:50-56 | the orthographic order is a permutation; with two slabs or more and a viewer who is not level with them it is back to front if and only if the inverse modelview matrix puts the viewer on the side that the rotation tells |
| `FramesOrderer.FarViewer` | examples/eVolve/framesOrderer.cpp:50-56 | back to front for that viewer is back to front for every eye far enough along the eye axis |
| `FramesOrderer.StraightHead` | examples/eVolve/channel.cpp:213-224 | if the head transform keeps the eye axis, the order is back to front for every volume and rotation |
| `FramesOrderer.HalfTurnedHead` | examples/eVolve/channel.cpp:213-224 | with a half-turned head and no rotation the order is wrong for any two slabs |
| `Modelview.HalfTurnExists` | examples/eVolve/channel.cpp:213-224 | the matrices of that failing input, number by number |
| `Modelview.TowardsIs` | examples/eVolve/channel.cpp:213-229 | if the head transform keeps the eye axis, the inverse takes it to the height of the rotation's axis divided by the volume's scaling |
| `VolumeTexture.MinPow2Least` | examples/eVolve/rawVolModel.cpp:181-195 | the result is not below the size, and no smaller power of two is |
| `VolumeTexture.MinPow2Wraps` | examples/eVolve/rawVolModel.cpp:181-195 | in 32 bits it is that power modulo 2^32 |
| `VolumeTexture.CalcMinPow2` | examples/eVolve/rawVolModel.cpp:181-195 | the shift loop computes that power for 1 to 2^31, and 0 for 0 and beyond |
| `VolumeTexture.GreaterExactly` | examples/eVolve/rawVolModel.cpp:179-195 | the result is greater than the size, as documented, if and only if the size is not 0, at most 2^31 and not a power of two |
| `VolumeTexture.FourStaysFour` | examples/eVolve/rawVolModel.cpp:179-195 | for 4 the result is 4 |
| `VolumeTexture.SlabsMeet` | examples/eVolve/rawVolModel.cpp:212-216 | adjoining ranges get adjoining layers if and only if they meet beyond the first layer |
| `VolumeTexture.RangeCovers` | examples/eVolve/rawVolModel.cpp:212-216 | a layer is not before the range's first one exactly if it ends behind the range's start, and not behind its last one exactly if it ends within the range, apart from the volume's own ends |
| `VolumeTexture.LayerLoaded` | examples/eVolve/rawVolModel.cpp:209-224 | exactly the range's layers and two on either side, as far as there are any, are loaded; also in terms of the depths of the range |
| `VolumeTexture.DepthPositive` | examples/eVolve/rawVolModel.cpp:212-224 | the clipped slab with its borders is a non-empty part of the volume |
| `VolumeTexture.Stream.Read` | examples/eVolve/rawVolModel.cpp:264-285 | copies what the file has and leaves the rest of the request zero |
| `VolumeTexture.FullLayers` | examples/eVolve/rawVolModel.cpp:266-269 | reading all layers at once is reading row by row when both sides are powers of two |
| `VolumeTexture.ReadLayerByLayer` | examples/eVolve/rawVolModel.cpp:270-274 | the second way fills the same padded array |
| `VolumeTexture.ReadRowByRow` | examples/eVolve/rawVolModel.cpp:275-283 | the third way fills the same padded array |
| `VolumeTexture.ReadLayers` | examples/eVolve/rawVolModel.cpp:266-283 | whichever way is taken, the array is the padded volume |
| `VolumeTexture.VoxelInPlace` | examples/eVolve/rawVolModel.cpp:251-283 | every voxel byte in the volume equals its byte in the file and every other byte is 0 |
| `VolumeTexture.TextureByte` | examples/eVolve/rawVolModel.cpp:224-283 | byte by byte: byte k of row j of texture layer i is byte k of row j of layer start + i of the file if these are within the volume's width and height and the loaded layers, else 0; the texture's sides are the powers of two |
| `VolumeTexture.CreateVolumeTexture` | examples/eVolve/rawVolModel.cpp:200-285 | sizes, seek and reads together produce the padded slab of the requested range, to which `TextureByte` applies |
| `TextureCoordinates.PlaneRight` | examples/eVolve/rawVolModel.h:40-51 | the width and height coefficients take every point to the same voxels of the texture |
| `TextureCoordinates.DepthInPlaceIff` | examples/eVolve/rawVolModel.cpp:230-238 | the depth coefficients take all depths to the right layers of the texture if and only if the range consists of whole layers and starts with the first one or, beyond 0.0001, not before the third |
| `TextureCoordinates.SecondLayerMisplaced` | examples/eVolve/rawVolModel.cpp:237-238 | the second of sixteen layers is such a range that fails |
| `AsyncFetcher.StepKeeps` | examples/eqAsync/asyncFetcher.cpp:131-188 | every action of either thread keeps all keys in order along deleted, returned, held, queued |
| `AsyncFetcher.RunKeeps` | examples/eqAsync/asyncFetcher.cpp:131-188 | so does every interleaving |
| `AsyncFetcher.EveryKeyInOnePlace` | examples/eqAsync/asyncFetcher.cpp:131-188 | in every interleaving each generated key is in exactly one of the places deleted, returned, held and queued, and no other key is anywhere |
| `AsyncFetcher.EveryTextureOnce` | examples/eqAsync/asyncFetcher.cpp:131-188 | in every interleaving each generated texture was deleted once, was purged once by deleteAll, or is alive, and never two of these |
| `AsyncFetcher.HeldIsAlive` | examples/eqAsync/eqAsync.cpp:58-71 | textures are shown in generation order without gaps, and the held one is alive until the fetcher reads the exit request |
| `AsyncFetcher.WindowDecides` | examples/eqAsync/asyncFetcher.cpp:131-138 | in every run, a fetcher that got its window is in its loop, or has read the exit request, and one that got none has returned and generates nothing |
| `AsyncFetcher.NextIsShown` | examples/eqAsync/asyncFetcher.cpp:144-188 | whenever the pipe draws and the fetcher has its window, the fetcher's own actions, at most one round of its loop, make the next texture available, and the pipe then shows it |
| `AsyncFetcher.AllDeletedAtTheEnd` | examples/eqAsync/asyncFetcher.cpp:80-94 | when the pipe has joined, every texture was deleted exactly once |
| `AsyncFetcher.NeverStuck` | examples/eqAsync/eqAsync.cpp:46-80 | before the end some action is possible, after it none |
| `AsyncFetcher.ExitTerminates` | examples/eqAsync/eqAsync.cpp:73-80 | after the exit request every interleaving joins after the same number of actions |
| `NBodyFrameData.SumCleared` | examples/eqNBody/frameData.cpp:134-141 | after a commit nothing is reported |
| `NBodyFrameData.FrameData.AddProxyID` | examples/eqNBody/frameData.cpp:106-115 | adds a row with no version and the range's length |
| `NBodyFrameData.FrameData.UpdateProxyID` | examples/eqNBody/frameData.cpp:117-132 | changes the first row of that proxy, or nothing |
| `NBodyFrameData.FrameData.Commit` | examples/eqNBody/frameData.cpp:134-141 | publishes the table, then clears the reported lengths only |
| `NBodyFrameData.FrameData.IsReady` | examples/eqNBody/frameData.cpp:143-153 | the summation loop decides whether the reported lengths add up to one |
| `NBodyFrameData.FrameData.GetVersionForProxyID` | examples/eqNBody/frameData.cpp:155-165 | the version in the first row of that proxy, or 0 |
| `NBodyBarrier.Config.BeginFrame` | examples/eqNBody/config.cpp:95-111 | a frame start always commits |
| `NBodyBarrier.Config.HandleEvent` | examples/eqNBody/config.cpp:118-137 | records the event and commits if the table is ready |
| `NBodyBarrier.CoveredAll` | examples/eqNBody/frameData.cpp:143-153 | proxies that tile [0,1] add up to one if and only if none is missing |
| `NBodyBarrier.RunKeeps` | examples/eqNBody/config.cpp:95-137 | in every run the table holds exactly the reports since the last commit and the newest announced versions |
| `NBodyBarrier.CommitsWhenAllReported` | examples/eqNBody/config.cpp:118-137 | a registration or update commits if and only if every proxy is registered and has reported since the last commit |
| `NBodyBarrier.PublishesNewest` | examples/eqNBody/config.cpp:95-137 | every broadcast names each proxy's newest announced version |
| `NBodyBarrier.NextRegistered` | examples/eqNBody/config.cpp:95-137 | an event registers at most its own proxy and a commit forgets none |
| `NBodyBarrier.FrameStartForgets` | examples/eqNBody/config.cpp:95-111 | with several proxies, the first event after a frame start never commits |
| `NBodySlices.SliceFits` | examples/eqNBody/sharedData.cpp:57-60 | a proxy's slice lies within the arrays |
| `NBodySlices.SlicesPartition` | examples/eqNBody/sharedData.cpp:57-60 | every byte is in exactly one slice if and only if every range bound falls on a float |
| `NBodySlices.ThirdsOverlap` | examples/eqNBody/sharedData.cpp:57-60 | two bodies on three GPUs: two slices share bytes |
| `NBodyMemory.SharedData.RegisterMemory` | examples/eqNBody/sharedData.cpp:55-74 | the local proxy gets the truncated offset and size and commits its slice |
| `NBodyMemory.SharedData.MapMemory` | examples/eqNBody/sharedData.cpp:76-96 | adds one proxy for every other owner in the table and applies that owner's instance data to the arrays |
| `NBodyMemory.SharedData.SyncMemory` | examples/eqNBody/sharedData.cpp:106-116 | brings every mapped proxy to its published version, one after the other |
| `NBodyMemory.SharedData.UpdateMemory` | examples/eqNBody/sharedData.cpp:118-130 | copies the own slice from the device, commits it and announces the version |
| `NBodyMemory.RegisterGood` | examples/eqNBody/sharedData.cpp:55-74 | after registerMemory the node shows its first commit, which carries its slice |
| `NBodyMemory.MapToGood` | examples/eqNBody/sharedData.cpp:76-96 | mapping gives exactly one proxy to this node and to every owner in the table, each showing the version it was mapped at |
| `NBodyMemory.MapEstablishes` | examples/eqNBody/sharedData.cpp:76-96 | registering and then mapping whatever table has arrived leaves a replica with exactly one proxy for this node and for each owner in the table, at the commits found, that shows them all and is at its own newest commit |
| `NBodyMemory.ReplayIsLast` | examples/eqNBody/sharedDataProxy.cpp:60-75 | replaying an owner's commits leaves the last of them |
| `NBodyMemory.SyncKeeps` | examples/eqNBody/sharedData.cpp:106-116 | synchronising one proxy keeps what all others show |
| `NBodyMemory.SyncToKeeps` | examples/eqNBody/sharedData.cpp:106-116 | syncMemory with any table keeps every slice at the version its proxy has; each mapped proxy goes to exactly the version named, unless it is there or beyond |
| `NBodyMemory.SyncReachesTable` | examples/eqNBody/sharedData.cpp:106-116 | synchronising brings every proxy to exactly what the table stands for, whatever has been committed since, if and only if none was beyond it before |
| `NBodyMemory.CommitKeeps` | examples/eqNBody/sharedDataProxy.cpp:43-58 | a new commit does not disturb replicas that have not seen it |
| `NBodyMemory.UpdateKeepsNewest` | examples/eqNBody/sharedData.cpp:118-130 | after updateMemory the owner shows its newest commit |
| `NBodyMemory.ReplicasAgree` | examples/eqNBody/sharedData.cpp:106-116 | if the slices are a partition, synchronising two complete replicas that are not beyond a table to it makes them equal, at whatever times they do it |
| `NBodyMemory.TableAgree` | examples/eqNBody/sharedData.cpp:106-116 | complete replicas at the same table are equal in every byte, even at different times |
| `NBodyRuns.StartHolds` | examples/eqNBody/sharedData.cpp:38-41 | the invariant holds before anybody has registered, whatever the arrays contain |
| `NBodyRuns.StepHolds` | examples/eqNBody/channel.cpp:74-115 | registering, mapping whatever table has arrived, synchronising, computing, seeing a broadcast, delivering an event and starting a frame each keep it: replicas show their versions, broadcasts never lose an owner or go back, undelivered events announce the last commits in order, and no foreign proxy is beyond the tables the node saw and the commit it mapped at |
| `NBodyRuns.RunHolds` | examples/eqNBody/channel.cpp:74-115 | so does every interleaving of all nodes and the application |
| `NBodySync.SyncInBounds` | examples/eqNBody/sharedData.cpp:106-116 | in every run syncMemory stays inside its vector if and only if every row of the current table was there when the node mapped (or, for a node that was not in that table, at most one row is new) |
| `NBodyLate.LateProxyOverruns` | examples/eqNBody/channel.cpp:89-97 | a run of two nodes after which syncMemory has two rows and one proxy |
| `NBodySync.BarrierSynchronises` | examples/eqNBody/channel.cpp:89-115 | in every run, after a broadcast at a frame start or at the barrier by which the events of two nodes have arrived: once each has seen it and synchronised, before its own next commit and having mapped everybody at commits that the broadcast knows of, their arrays are equal, whatever the others commit |
| `NBodySync.QuietBroadcastSynchronises` | examples/eqNBody/config.cpp:95-137 | in particular if all events had arrived and both nodes had mapped everybody by then |
| `NBodyContents.RunGiven` | examples/eqNBody/sharedData.cpp:118-130 | in every run, the v-th commit of a node carries its slice of the v-th arrays that it was given: its own when it registered, the device's afterwards |
| `NBodyContents.BroadcastShows` | examples/eqNBody/channel.cpp:89-115 | in every run, a node that synchronises to a broadcast under the conditions of `BarrierSynchronises` holds, in every owner's slice, the bytes that the owner's device had for the commit that the broadcast names |
| `NBodyContents.QuietShowsLast` | examples/eqNBody/config.cpp:95-137 | if the owner's events had arrived, that is the owner's last commit |
| `NBodyAhead.AheadDiffers` | examples/eqNBody/sharedData.cpp:76-96 | a run of three nodes in which only that last condition fails and the arrays differ |
| `NBodyMemory.GapStays` | examples/eqNBody/sharedDataProxy.cpp:60-75 | a byte in nobody's slice is never synchronised |
| `PlyItems.SaveOfLoad` | examples/eqPly/plyfile.cpp:2286-2342 | an item read from memory as a type and stored as that type is unchanged, bit by bit |
| `PlyItems.LoadOfSave` | examples/eqPly/plyfile.cpp:2359-2484 | values come back through a type if and only if the type can carry them |
| `PlyItems.ItemRoundTrip` | examples/eqPly/plyfile.cpp:2131-2226 | an item that its type carries survives the file, in both byte orders, except big-endian ushort |
| `PlyItems.BigEndianUShort` | examples/eqPly/plyfile.cpp:2175-2186 | a big-endian ushort survives if and only if its two bytes are equal |
| `PlyElements.ParseOfElement` | examples/eqPly/plyfile.cpp:1834-1936 | reading a written element gives all scalars and lists back and consumes exactly its bytes |
| `PlyElements.WrittenLength` | examples/eqPly/plyfile.cpp:784-799 | a list is written with as many items as its count says as a signed 32-bit number, none if that is negative |
| `PlyElements.ReadLength` | examples/eqPly/plyfile.cpp:1882-1924 | a list is read with as many items as the count at its start says, none if that is negative |
| `PlyElements.FieldStored` | examples/eqPly/plyfile.cpp:1834-1936 | every requested property is stored at its offset in the user's struct, and every other one at its offset in other_props |
| `PlyElements.ElementReprints` | examples/eqPly/plyfile.cpp:1834-1936 | the bytes accepted as an element are what its values are written as |
| `PlyElements.RewriteReproduces` | examples/eqPly/plyfile.cpp:771-809 | reading an element into struct and other_props and writing it with the same selection reproduces its bytes |
| `PlyElements.OthersUntouched` | examples/eqPly/plyfile.cpp:1834-1936 | offsets that no requested property uses are not written |
| `PlyElements.ElementRoundTrip` | examples/eqPly/plyfile.cpp:771-809 | for every description and every choice of requested properties, reading what was written stores each requested property with its value and stops at the following bytes |
| `PlyElements.ScalarUnchanged` | examples/eqPly/plyfile.cpp:1926-1934 | a scalar of one type throughout comes back bit by bit |
| `PlyElements.ListUnchanged` | examples/eqPly/plyfile.cpp:1882-1924 | so does every item of a list |
| `PlyFileIO.PlyFile.WriteBinaryItem` | examples/eqPly/plyfile.cpp:2131-2226 | appends the item's bytes |
| `PlyFileIO.PlyFile.PutElement` | examples/eqPly/plyfile.cpp:771-809 | the loops append the element's bytes, taking each property from the user's struct or from other_props |
| `PlyFileIO.PlyFile.GetBinaryItem` | examples/eqPly/plyfile.cpp:2359-2484 | reads one item or aborts |
| `PlyFileIO.PlyFile.BinaryGetElement` | examples/eqPly/plyfile.cpp:1834-1936 | the loops read and store as specified or abort |
| `PlyHeader.WordsOfJoin` | examples/eqPly/plyfile.cpp:2018-2044 | words joined by spaces are split into the same words |
| `PlyHeader.AtoiOfPrint` | examples/eqPly/plyfile.cpp:2624-2644 | a printed count is read back |
| `PlyHeader.TypeOfName` | examples/eqPly/plyfile.cpp:2657-2668 | the name search finds every valid type |
| `PlyVocabulary.TypeNames` | examples/eqPly/plyfile.cpp:51-56 | which word names which type, letter by letter; every other word is invalid |
| `PlyVocabulary.FormatNames` | examples/eqPly/plyfile.cpp:938-943 | the same for the formats |
| `PlyVocabulary.Keywords` | examples/eqPly/plyfile.cpp:932-960 | and for the words that start a line |
| `PlyVocabulary.ScalarProperty` | examples/eqPly/plyfile.cpp:2679-2699 | a line `property TYPE NAME` adds a scalar of the type that the word names, or of the invalid one; further words do not matter |
| `PlyVocabulary.ListProperty` | examples/eqPly/plyfile.cpp:2687-2692 | a line `property list COUNT TYPE NAME` adds a list; further words do not matter, missing ones are an error |
| `PlyVocabulary.FloatProperty` | examples/eqPly/plyfile.cpp:2657-2699 | `property float NAME` adds a float for every name |
| `PlyVocabulary.FaceProperty` | examples/eqPly/plyfile.cpp:2657-2699 | `property list uchar int NAME` adds a list of ints counted by a uchar |
| `PlyVocabulary.FormatSet` | examples/eqPly/plyfile.cpp:932-951 | a line of three words with a known format sets it, any other line that starts with `format` fails |
| `PlyVocabulary.ElementOpened` | examples/eqPly/plyfile.cpp:2624-2644 | a line `element NAME NUMBER` opens an element without properties |
| `PlyVocabulary.OthersSkipped` | examples/eqPly/plyfile.cpp:930-967 | a line that starts with any other word changes nothing |
| `PlyVocabulary.NumberRead` | examples/eqPly/plyfile.cpp:2631-2631 | a count is read up to its first other character, with either sign or none, and is 0 without digits |
| `PlyVocabulary.NotPly` | examples/eqPly/plyfile.cpp:921-926 | a file that starts with another word is refused |
| `PlyVocabulary.EndMissing` | examples/eqPly/plyfile.cpp:927-967 | a file that ends behind its header lines is read although `end_header` is missing |
| `PlyVocabulary.CubeHeader` | examples/eqPly/plyfile.cpp:613-674 | a whole header as it stands in a file is what printing gives, and is read as the elements and properties that it names |
| `PlyHeader.PropLine` | examples/eqPly/plyfile.cpp:2679-2712 | a printed property line adds that property to the current element |
| `PlyHeader.ElementLine` | examples/eqPly/plyfile.cpp:2624-2644 | a printed element line adds that element |
| `PlyHeader.TextLine` | examples/eqPly/plyfile.cpp:2723-2754 | skipping the keyword and blanks leaves the text |
| `PlyHeader.HeaderRoundTrip` | examples/eqPly/plyfile.cpp:893-969 | reading a printed header gives format, comments, object info, elements, counts and typed properties back in order and stops where the data begins |
| `PlyHeaderLimits.ReadsClean` | examples/eqPly/plyfile.cpp:1977-2049 | no file whatever yields a text with a leading space, tab, line end or zero character, or a name that is not a word |
| `PlyHeaderLimits.ReadsGrow` | examples/eqPly/plyfile.cpp:927-963 | reading on never changes or removes what was read |
| `PlyHeaderLimits.TextFits` | examples/eqPly/plyfile.cpp:1989-2003 | a comment or object info that came back had a line shorter than the buffer allows |
| `PlyHeaderLimits.ElementFits` | examples/eqPly/plyfile.cpp:1989-2003 | so had an element |
| `PlyHeaderLimits.PropFits` | examples/eqPly/plyfile.cpp:1989-2003 | and a property |
| `PlyHeaderLimits.HeaderSurvives` | examples/eqPly/plyfile.cpp:613-674 | a header with valid types is read back unchanged from its file, with the data left to read, if and only if it is printable |
| `PlyHeaderLimits.CommentsSurvive` | examples/eqPly/plyfile.cpp:2723-2733 | for a header that is otherwise printable, exactly when every comment is |
| `PlyHeaderLimits.LongCommentLost` | examples/eqPly/plyfile.cpp:1989-2003 | a comment of 4090 characters does not come back |
| `PlyHeaderLimits.CommentLength` | examples/eqPly/plyfile.cpp:1989-2003 | a comment without line ends and leading blanks comes back if and only if it has at most 4085 characters |
| `PlyHeaderLimits.NameLength` | examples/eqPly/plyfile.cpp:1989-2003 | the name of a float property comes back if and only if it has at most 4079 characters |
| `PlyHeaderLimits.BrokenCommentLost` | examples/eqPly/plyfile.cpp:2723-2733 | neither does one with a line end |
| `PlyHeaderIO.GetWords` | examples/eqPly/plyfile.cpp:1977-2049 | the pointer loops split a line into its words |
| `PlyHeaderIO.PlyRead` | examples/eqPly/plyfile.cpp:893-969 | the line loop computes the specified parse |
| `PlyHeaderIO.HeaderComplete` | examples/eqPly/plyfile.cpp:613-674 | the printing loops produce the specified text |
| `PlyOtherProps.SetupOtherProps` | examples/eqPly/plyfile.cpp:1260-1314 | the nested loops give the planned fields consecutive offsets, copy the external types and leave requested properties alone |
| `PlyOtherProps.LayoutSound` | examples/eqPly/plyfile.cpp:1260-1314 | fields do not overlap, lie within other_size and are aligned to their sizes |
| `PlyOtherProps.FieldFits` | examples/eqPly/plyfile.cpp:1278-1308 | each field has the size of what reading stores in it: the item, the count, or the pointer to a list |
| `PlyOtherProps.LayoutComplete` | examples/eqPly/plyfile.cpp:1260-1314 | every field of an unrequested property with a valid type is placed exactly once, and nothing else |
| `PlyOtherProps.LayoutDisjoint` | examples/eqPly/plyfile.cpp:1260-1314 | the offsets that it assigns are different places for all unrequested properties, list counts included |
| `PlyOtherProps.OtherPropsSurvive` | examples/eqPly/plyfile.cpp:1260-1314 | an element read with the unrequested properties laid out by it and written with the same selection has the same bytes |
| `SequenceNumbers.WindowOrder` | Windows/udt/common.h:206-221 | within a window shorter than the threshold, comparison and offset are those of the unwrapped positions |
| `SequenceNumbers.OffsetAndOrder` | Windows/udt/common.h:206-221 | for all numbers the offset is congruent to the difference and its sign is opposite to the comparison's |
| `SequenceNumbers.HalfCycleAmbiguous` | Windows/udt/common.h:206-221 | half a cycle apart the order is reversed, so the window cannot be larger |
| `SequenceNumbers.JumpIsSteps` | Windows/udt/common.h:223-230 | incrementing by k is k single increments |
| `SequenceNumbers.JumpByOffset` | Windows/udt/common.h:212-230 | incrementing by the offset arrives if and only if it does not go backwards across zero |
| `SequenceNumbers.StepsInverse` | Windows/udt/common.h:223-227 | single steps up and down undo each other and stay in the range |
| `SequenceNumbers.LengthIsSteps` | Windows/udt/common.h:209-210 | the length is one more than the number of steps from the first number to the second |
| `SequenceNumbers.LengthOverflows` | Windows/udt/common.h:209-210 | exactly a full cycle of 2^31 numbers does not fit a signed 32-bit result |

## Left out

- Floating-point rounding and NaN: geometry and ranges use exact reals. `isReady` compares a float sum with 1.0; with rounding it may never be equal.
- Square root and sorting: `sqrt`, `std::sort`, the split test and the leaf storage are parameters with their defining properties; ties may be sorted in any order.
- Frustum culler: vmmlib's sphere test is a function that calls a sphere invisible only if no point of it is in the frustum.
- Early exit through `stopRendering`, OpenGL state, buffer objects and display lists.
- One-triangle meshes: the build asserts that a sorted range is not empty, so the root requires at least two triangles.
- Reading outside a vector: lookups with indices out of range yield a default value in `VertexData` and `KdSpec`; theorems about meshes require valid indices.
- Reading past the end of a mesh file: the source does not check it; the parser answers `Truncated`.
- CullDraw.CullDraw: works on the tree's value rather than on node objects, because the loop changes no node.
- Distribution.MapObject: works on values; `co::Object` registration, versions and network transport are represented by a map from IDs to instance data and by a generator of new IDs.
- AsyncFetcher: `configExit` without an earlier start of the fetcher, texture contents, sleeping times; one action is one queue or object manager operation.
- NBody: proxies are named 0, 1, ... instead of by UUIDs; `co::Object::sync` is taken to apply all commits up to the version in order; colours are not sent by the source and not modelled; a mapping may find any commit of the owner made so far; a node may see any broadcast that is not older than the last one it saw; in runs every node registers once and no memory is released; the demo counter and the CUDA kernels are left out.
- NBodyMemory.SharedData.SyncMemory: requires a proxy for every row of the table; the source reads outside its vector otherwise. `NBodySync.SyncInBounds` says exactly when that happens; in runs the model then goes on as if the missing proxies were skipped.
- FramesOrderer.OrderFrames: requires at least one frame in perspective; the source reads outside an empty vector.
- Modelview: the head transform is taken to be a rotation with a translation; model units other than 1 are left out.
- SliceClipping: the view vector is read from the matrix as given; the vertex shader's shift is left out. `planeStart` assumes a positive slice distance, which the renderer computes.
- VolumeTexture.CreateVolumeTexture: requires sizes whose products fit 32 bits, as the source's arithmetic assumes; texture upload and caching are left out.
- PLY: a little-endian host; offsets of a struct are distinct places and not byte ranges; ASCII elements, float printing and "other elements" are left out.
- PlyElements.ElementRoundTrip: requires values that the file's types can carry and lists as long as their counts, as the writer assumes; big-endian ushort is excluded.
- PlyOtherProps.OtherPropsSurvive: requires that the struct's types carry the requested values, that the requested offsets are different, and list counts below 2^31; big-endian ushort is excluded.
- PlyFileIO.PlyFile.PutElement: requires valid types; the source exits for others after writing part of the element.
- PlyHeader.HeaderRoundTrip: requires a printable header; `PlyHeaderLimits.HeaderSurvives` shows that no other comes back.
- PlyHeader: a line without newline or with a zero character, and a line with too few words, end in a failed parse; in the source their effect is undefined. `atoi` does not overflow.
- SequenceNumbers: the values of the threshold and of the largest number are not part of this model; they are parameters with the threshold at most half the cycle.
- User interface, event handling, tracker, window system, command line and configuration code.
