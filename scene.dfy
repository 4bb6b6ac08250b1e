/**
 * The imported scene as the model loader sees it (the parts of Assimp's
 * aiScene that Model reads): a node tree referring to meshes by index,
 * meshes with per-vertex channels and faces, and materials listing texture
 * file paths per texture type.
 */
module Scene {

  import opened Wrappers
  import opened Vectors

  /** The two texture types the loader asks for (aiTextureType_DIFFUSE, aiTextureType_SPECULAR). */
  datatype TextureType = Diffuse | Specular

  /** A face: the vertex indices of one polygon (mIndices). */
  datatype Face = Face(indices: seq<nat>)

  /**
   * aiMesh: positions (mVertices), normals (mNormals), the optional texture
   * coordinate channel 0 (mTextureCoords[0]), faces and the material index.
   */
  datatype ImportedMesh = ImportedMesh(
    vertices: seq<Vec3>,
    normals: seq<Vec3>,
    texCoords0: Option<seq<Vec3>>,
    faces: seq<Face>,
    materialIndex: nat)

  /** aiMaterial: for each texture type, the texture paths in the order GetTexture enumerates them. */
  datatype Material = Material(textures: map<TextureType, seq<string>>) {

    /** The paths of one type; GetTextureCount is their number, 0 for a type the material lacks. */
    function Paths(kind: TextureType): seq<string> {
      if kind in textures then textures[kind] else []
    }
  }

  /** aiNode: the indices of its meshes (mMeshes) and its children. */
  datatype Node = Node(meshes: seq<nat>, children: seq<Node>)

  datatype ImportedScene = ImportedScene(meshes: seq<ImportedMesh>, materials: seq<Material>, root: Node)

  /** Every vertex channel the loader reads has one entry per vertex, and the material exists. */
  predicate MeshWellFormed(m: ImportedMesh, materialCount: nat) {
    && |m.normals| == |m.vertices|
    && (m.texCoords0.Some? ==> |m.texCoords0.value| == |m.vertices|)
    && m.materialIndex < materialCount
  }

  predicate MeshesWellFormed(s: ImportedScene) {
    forall i :: 0 <= i < |s.meshes| ==> MeshWellFormed(s.meshes[i], |s.materials|)
  }

  /** Every node of the subtree refers to meshes below meshCount only. */
  predicate NodeWellFormed(n: Node, meshCount: nat)
    decreases n
  {
    && (forall i :: 0 <= i < |n.meshes| ==> n.meshes[i] < meshCount)
    && (forall i :: 0 <= i < |n.children| ==> NodeWellFormed(n.children[i], meshCount))
  }

  /** A complete import: what loadModel relies on once the importer has succeeded. */
  predicate WellFormed(s: ImportedScene) {
    MeshesWellFormed(s) && NodeWellFormed(s.root, |s.meshes|)
  }

  predicate RefsInRange(order: seq<nat>, meshCount: nat) {
    forall i :: 0 <= i < |order| ==> order[i] < meshCount
  }

  /** A concatenation of reference lists is in range exactly when both parts are. */
  lemma RefsInRangeAppend(a: seq<nat>, b: seq<nat>, meshCount: nat)
    ensures RefsInRange(a + b, meshCount) <==> RefsInRange(a, meshCount) && RefsInRange(b, meshCount)
  {
    assert forall i :: 0 <= i < |a| ==> (a + b)[i] == a[i];
    assert forall i :: 0 <= i < |b| ==> (a + b)[|a| + i] == b[i];
  }

  /** The mesh references of a subtree in pre-order: the node's own, then each child's subtree, left to right. */
  function PreOrder(n: Node): seq<nat>
    decreases n, 1
  {
    n.meshes + Forest(n.children)
  }

  /** The pre-order mesh references of a list of sibling subtrees, in list order. */
  function Forest(cs: seq<Node>): seq<nat>
    decreases cs, 0
  {
    if cs == [] then [] else Forest(cs[..|cs| - 1]) + PreOrder(cs[|cs| - 1])
  }

  /** The pre-order of the first i + 1 siblings extends that of the first i by subtree i. */
  lemma ForestSnoc(cs: seq<Node>, i: nat)
    requires i < |cs|
    ensures Forest(cs[..i + 1]) == Forest(cs[..i]) + PreOrder(cs[i])
  {
    assert cs[..i + 1][..i] == cs[..i];
  }

  /** Whether some node of the subtree lists mesh index x among its own meshes. */
  predicate References(n: Node, x: nat)
    decreases n
  {
    x in n.meshes || exists i :: 0 <= i < |n.children| && References(n.children[i], x)
  }

  /** Whether one of the subtrees cs references x. */
  predicate SomeReferences(cs: seq<Node>, x: nat) {
    exists i :: 0 <= i < |cs| && References(cs[i], x)
  }

  /** The number of mesh references held by the nodes of the subtree (sum of mNumMeshes). */
  function SubtreeMeshCount(n: Node): nat
    decreases n, 1
  {
    |n.meshes| + ForestMeshCount(n.children, |n.children|)
  }

  /** The number of mesh references held by the first k subtrees of cs. */
  function ForestMeshCount(cs: seq<Node>, k: nat): nat
    requires k <= |cs|
    decreases cs, 0, k
  {
    if k == 0 then 0 else ForestMeshCount(cs, k - 1) + SubtreeMeshCount(cs[k - 1])
  }

  /** A well-formed subtree only yields mesh indices that exist. */
  lemma {:induction false} PreOrderInRange(n: Node, meshCount: nat)
    requires NodeWellFormed(n, meshCount)
    ensures RefsInRange(PreOrder(n), meshCount)
    decreases n, 1
  {
    ForestInRange(n.children, meshCount);
  }

  lemma {:induction false} ForestInRange(cs: seq<Node>, meshCount: nat)
    requires forall i :: 0 <= i < |cs| ==> NodeWellFormed(cs[i], meshCount)
    ensures RefsInRange(Forest(cs), meshCount)
    decreases cs, 0
  {
    if cs != [] {
      ForestInRange(cs[..|cs| - 1], meshCount);
      PreOrderInRange(cs[|cs| - 1], meshCount);
    }
  }

  /** The pre-order holds one entry per mesh reference of the subtree. */
  lemma {:induction false} PreOrderLength(n: Node)
    ensures |PreOrder(n)| == SubtreeMeshCount(n)
    decreases n, 1
  {
    ForestLength(n.children, |n.children|);
    assert n.children[..|n.children|] == n.children;
  }

  lemma {:induction false} ForestLength(cs: seq<Node>, k: nat)
    requires k <= |cs|
    ensures |Forest(cs[..k])| == ForestMeshCount(cs, k)
    decreases cs, 0, k
  {
    if k > 0 {
      assert cs[..k][..k - 1] == cs[..k - 1];
      ForestLength(cs, k - 1);
      PreOrderLength(cs[k - 1]);
    }
  }

  /** A mesh index occurs in the pre-order exactly when some node of the subtree references it. */
  lemma {:induction false} PreOrderMembers(n: Node, x: nat)
    ensures x in PreOrder(n) <==> References(n, x)
    decreases n, 1
  {
    ForestMembers(n.children, x);
  }

  lemma {:induction false} ForestMembers(cs: seq<Node>, x: nat)
    ensures x in Forest(cs) <==> SomeReferences(cs, x)
    decreases cs, 0
  {
    if cs != [] {
      ForestMembers(cs[..|cs| - 1], x);
      PreOrderMembers(cs[|cs| - 1], x);
      SomeReferencesSnoc(cs, x);
    }
  }

  /** Some subtree of cs references x exactly when one of all but the last does or the last does. */
  lemma SomeReferencesSnoc(cs: seq<Node>, x: nat)
    requires cs != []
    ensures SomeReferences(cs, x) <==> SomeReferences(cs[..|cs| - 1], x) || References(cs[|cs| - 1], x)
  {
  }

}
