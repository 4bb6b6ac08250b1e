/**
 * The Model class of model.h: it loads an imported scene into a flat list of
 * meshes, keeping a cache of the textures it has loaded so that a texture
 * file shared by several meshes is loaded once.
 */
module ModelLoader {

  import opened Vectors
  import opened MeshDraw
  import opened Scene
  import opened FilePaths
  import opened LoadingSpec
  import opened Sequences

  /** The vertex loop of processMesh: one vertex per imported vertex, in order. */
  method CopyVertices(m: ImportedMesh) returns (vertices: seq<Vertex>)
    requires |m.normals| == |m.vertices|
    requires m.texCoords0.Some? ==> |m.texCoords0.value| == |m.vertices|
    ensures |vertices| == |m.vertices|
    ensures forall i :: 0 <= i < |vertices| ==>
      && vertices[i].position == m.vertices[i]
      && vertices[i].normal == m.normals[i]
      && vertices[i].texCoords ==
           (if m.texCoords0.Some? then Vec2(m.texCoords0.value[i].x, m.texCoords0.value[i].y) else Vec2(0.0, 0.0))
    ensures vertices == VerticesOf(m)
  {
    vertices := [];
    for i := 0 to |m.vertices|
      invariant |vertices| == i
      invariant forall j :: 0 <= j < i ==> vertices[j] == VertexAt(m, j)
    {
      var texCoords;
      if m.texCoords0.Some? {
        texCoords := Vec2(m.texCoords0.value[i].x, m.texCoords0.value[i].y);
      } else {
        texCoords := Vec2(0.0, 0.0);
      }
      vertices := vertices + [Vertex(m.vertices[i], m.normals[i], texCoords)];
    }
  }

  /** The index loop of processMesh: every face's indices, face after face. */
  method ConcatFaceIndices(faces: seq<Face>) returns (indices: seq<nat>)
    ensures indices == FaceIndices(faces)
    ensures |indices| == IndexCount(faces)
  {
    indices := [];
    for i := 0 to |faces|
      invariant indices == FaceIndices(faces[..i])
    {
      var face := faces[i];
      for j := 0 to |face.indices|
        invariant indices == FaceIndices(faces[..i]) + face.indices[..j]
      {
        indices := indices + [face.indices[j]];
      }
      assert faces[..i + 1][..i] == faces[..i];
      assert face.indices[..|face.indices|] == face.indices;
    }
    assert faces[..|faces|] == faces;
    FaceIndicesLength(faces);
  }

  class Model {
    var meshes: seq<Mesh>
    var directory: string
    /** textures_loaded: every texture loaded so far, by the path its material gave. */
    var texturesLoaded: map<string, Texture>
    /**
     * loadTextureFromFile stands for the image decoder and OpenGL: the model
     * keeps only the texture name it hands out next and the files it has
     * been asked to open.
     */
    var nextTextureId: nat
    var fileRequests: seq<string>

    ghost function LoaderState(): Loader
      reads this
    {
      Loader(texturesLoaded, nextTextureId, fileRequests)
    }

    ghost predicate Valid()
      reads this
    {
      CacheValid(LoaderState())
    }

    /**
     * Model(path): an empty model that then loads the scene the importer
     * read from path. Its own texture-name supplier starts at 1, as OpenGL
     * never hands out 0.
     */
    constructor (path: string, scene: ImportedScene)
      requires WellFormed(scene)
      ensures Valid()
      ensures directory == Directory(path)
      ensures RefsInRange(PreOrder(scene.root), |scene.meshes|)
      ensures var r := ProcessAll(Loader(map[], 1, []), directory, scene, PreOrder(scene.root));
        meshes == r.meshes && LoaderState() == r.after
      ensures |meshes| == |PreOrder(scene.root)| == SubtreeMeshCount(scene.root)
      ensures forall k :: 0 <= k < |meshes| ==>
        && meshes[k].vertices == VerticesOf(scene.meshes[PreOrder(scene.root)[k]])
        && meshes[k].indices == FaceIndices(scene.meshes[PreOrder(scene.root)[k]].faces)
    {
      meshes := [];
      directory := "";
      texturesLoaded := map[];
      nextTextureId := 1;
      fileRequests := [];
      new;
      LoadModel(path, scene);
      PreOrderLength(scene.root);
      ProcessAllGeometry(Loader(map[], 1, []), directory, scene, PreOrder(scene.root));
    }

    /**
     * loadModel once the importer has succeeded: remember the directory of
     * the model file, then flatten the node tree from the root.
     */
    method LoadModel(path: string, scene: ImportedScene)
      requires Valid() && WellFormed(scene)
      modifies this
      ensures Valid()
      ensures directory == Directory(path)
      ensures RefsInRange(PreOrder(scene.root), |scene.meshes|)
      ensures var r := ProcessAll(old(LoaderState()), directory, scene, PreOrder(scene.root));
        meshes == old(meshes) + r.meshes && LoaderState() == r.after
    {
      directory := Directory(path);
      ProcessNode(scene.root, scene);
      ProcessAllKeepsCacheValid(old(LoaderState()), directory, scene, PreOrder(scene.root));
    }

    /**
     * processNode: the node's own meshes in index order, then each child
     * subtree left to right, each mesh appended to `meshes` as it is built.
     */
    method ProcessNode(node: Node, scene: ImportedScene)
      requires MeshesWellFormed(scene) && NodeWellFormed(node, |scene.meshes|)
      modifies this`meshes, this`texturesLoaded, this`nextTextureId, this`fileRequests
      ensures RefsInRange(PreOrder(node), |scene.meshes|)
      ensures var r := ProcessAll(old(LoaderState()), directory, scene, PreOrder(node));
        meshes == old(meshes) + r.meshes && LoaderState() == r.after
      decreases node
    {
      PreOrderInRange(node, |scene.meshes|);
      ghost var st0 := LoaderState();
      ghost var m0 := meshes;
      ghost var visited: seq<nat> := [];
      ghost var built: seq<Mesh> := [];
      for i := 0 to |node.meshes|
        invariant visited == node.meshes[..i] && RefsInRange(visited, |scene.meshes|)
        invariant meshes == m0 + built
        invariant ProcessAll(st0, directory, scene, visited) == BuiltAll(built, LoaderState())
      {
        var mesh := ProcessMesh(scene.meshes[node.meshes[i]], scene);
        AppendAssoc(m0, built, [mesh]);
        meshes := meshes + [mesh];
        ProcessAllSnoc(st0, directory, scene, visited, node.meshes[i], Built(mesh, LoaderState()));
        visited := visited + [node.meshes[i]];
        built := built + [mesh];
        assert node.meshes[..i + 1] == visited;
      }
      assert visited == node.meshes + Forest(node.children[..0]);
      for i := 0 to |node.children|
        invariant visited == node.meshes + Forest(node.children[..i]) && RefsInRange(visited, |scene.meshes|)
        invariant meshes == m0 + built
        invariant ProcessAll(st0, directory, scene, visited) == BuiltAll(built, LoaderState())
      {
        ghost var meshesBefore := meshes;
        ProcessNode(node.children[i], scene);
        ghost var child := BuiltAll(meshes[|meshesBefore|..], LoaderState());
        assert meshes == meshesBefore + child.meshes;
        AppendAssoc(m0, built, child.meshes);
        ProcessAllChildStep(st0, directory, scene, node, i, child);
        visited := visited + PreOrder(node.children[i]);
        built := built + child.meshes;
      }
      assert node.children[..|node.children|] == node.children;
    }

    /**
     * processMesh: copy the vertices, concatenate the faces' indices, then
     * load the material's diffuse maps followed by its specular maps.
     */
    method ProcessMesh(m: ImportedMesh, scene: ImportedScene) returns (mesh: Mesh)
      requires MeshWellFormed(m, |scene.materials|)
      modifies this`texturesLoaded, this`nextTextureId, this`fileRequests
      ensures mesh.vertices == VerticesOf(m)
      ensures mesh.indices == FaceIndices(m.faces)
      ensures var mat := scene.materials[m.materialIndex];
        var diffuse := LoadTextures(old(LoaderState()), directory, mat.Paths(Diffuse), DiffuseName);
        var specular := LoadTextures(diffuse.after, directory, mat.Paths(Specular), SpecularName);
        mesh.textures == diffuse.textures + specular.textures && LoaderState() == specular.after
      ensures Built(mesh, LoaderState()) == ProcessedMesh(old(LoaderState()), directory, scene, m)
    {
      var vertices := CopyVertices(m);
      var indices := ConcatFaceIndices(m.faces);
      // mMaterialIndex is unsigned, so the source's test `>= 0` always holds.
      var material := scene.materials[m.materialIndex];
      var diffuseMaps := LoadMaterialTextures(material, Diffuse, DiffuseName);
      var specularMaps := LoadMaterialTextures(material, Specular, SpecularName);
      mesh := Mesh(vertices, diffuseMaps + specularMaps, indices);
    }

    /**
     * loadMaterialTextures: walk the material's paths of one type; load and
     * cache each path not cached yet, and at the first cached path append
     * the cached texture as it is and leave the loop.
     */
    method LoadMaterialTextures(mat: Material, kind: TextureType, typeName: string) returns (textures: seq<Texture>)
      modifies this`texturesLoaded, this`nextTextureId, this`fileRequests
      ensures Loaded(textures, LoaderState()) == LoadTextures(old(LoaderState()), directory, mat.Paths(kind), typeName)
      ensures |textures| <= |mat.Paths(kind)|
      ensures forall p :: p in old(texturesLoaded) ==> p in texturesLoaded && texturesLoaded[p] == old(texturesLoaded)[p]
    {
      var paths := mat.Paths(kind);
      ghost var st0 := LoaderState();
      ghost var goal := LoadTextures(st0, directory, paths, typeName);
      textures := [];
      var i := 0;
      while i < |paths|
        invariant i <= |paths|
        invariant var rest := LoadTextures(LoaderState(), directory, paths[i..], typeName);
          goal == Loaded(textures + rest.textures, rest.after)
      {
        var path := paths[i];
        if path in texturesLoaded {
          LoadTexturesHitStep(LoaderState(), directory, paths[i..], typeName);
          textures := textures + [texturesLoaded[path]];
          break;
        }
        LoadTexturesMissStep(LoaderState(), directory, paths[i..], typeName);
        assert paths[i..][1..] == paths[i + 1..];
        ghost var before := textures;
        var id := LoadTextureFromFile(TextureFile(directory, path));
        var texture := Texture(id, typeName, path);
        textures := textures + [texture];
        texturesLoaded := texturesLoaded[path := texture];
        AppendAssoc(before, [texture], LoadTextures(LoaderState(), directory, paths[i + 1..], typeName).textures);
        i := i + 1;
      }
      LoadTexturesAtMostCount(st0, directory, paths, typeName);
      LoadTexturesCacheUpdate(st0, directory, paths, typeName, FirstHit(st0.cache.Keys, paths));
    }

    /**
     * loadTextureFromFile as the loader sees it: the image file is requested
     * and a texture name not handed out before is returned.
     */
    method LoadTextureFromFile(imagePath: string) returns (id: nat)
      modifies this`nextTextureId, this`fileRequests
      ensures id == old(nextTextureId) && nextTextureId == id + 1
      ensures fileRequests == old(fileRequests) + [imagePath]
    {
      id := nextTextureId;
      nextTextureId := nextTextureId + 1;
      fileRequests := fileRequests + [imagePath];
    }

    /** Model::Draw: every mesh is drawn, in list order. */
    method Draw() returns (calls: seq<DrawCall>)
      ensures |calls| == |meshes|
      ensures forall i :: 0 <= i < |meshes| ==> DrawsMesh(calls[i], meshes[i])
    {
      calls := [];
      for i := 0 to |meshes|
        invariant |calls| == i
        invariant forall j :: 0 <= j < i ==> DrawsMesh(calls[j], meshes[j])
      {
        var call := meshes[i].Draw();
        calls := calls + [call];
      }
    }
  }

}
