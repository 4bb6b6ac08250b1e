# Model loading and mesh drawing of LearnOpenGL, in Dafny

This project models the bookkeeping of the `Model` and `Mesh` classes of the
LearnOpenGL samples: how an imported scene (Assimp's `aiScene`) is flattened
into a list of meshes, how textures are loaded once and shared through the
`textures_loaded` cache, how the model file's directory is found, which pixel
format an image's channel count selects, and how `Mesh::Draw` names and binds
its texture samplers.

- `scene.dfy` (module `Scene`): the imported scene as an input value — a node
  tree referring to meshes by index, meshes with positions, normals, an
  optional texture-coordinate channel 0 and faces, and materials listing
  texture paths per texture type. It defines the pre-order of mesh references
  that `processNode` follows and proves its length and membership.
- `loading_spec.dfy` (module `LoadingSpec`): value-level functions for what
  `loadMaterialTextures`, `processMesh` and `processNode` compute, with the
  loader state (cache, next texture name, files requested) threaded through,
  and the lemmas about them.
- `model.dfy` (module `ModelLoader`): the `Model` class with the fields
  `meshes`, `directory` and `texturesLoaded`, and imperative methods with the
  source's loops, each proved to follow the functions above.
- `mesh.dfy` (module `MeshDraw`): `Vertex`, `Texture`, the `Mesh` value and
  its `Draw` method, which returns the sequence of (uniform name, texture
  unit, texture name) bindings and the element count of the draw call.
- `file_paths.dfy`, `texture_format.dfy`, `decimal.dfy`: the directory of a
  path, the channel-count-to-format choice, and the decimal rendering of the
  sampler counters.

Behaviour of the source that the model keeps as written:

- `loadMaterialTextures` leaves its loop at the first path that is already
  cached (`break`), after appending the cached texture unchanged. Paths
  after it are never loaded, and a path repeated within one material also
  counts as a hit, because its first occurrence was cached a moment before.
  A texture reused from the cache keeps the type and texture name it was
  first loaded with.
- `mMaterialIndex` is unsigned, so the test `mesh->mMaterialIndex >= 0` in
  `processMesh` always holds: the material's textures are always loaded.
- Texture names come from an abstract supplier that belongs to each model
  and hands out 1, 2, 3, … in turn. It starts at 1 because OpenGL never
  returns the name 0. That the names are consecutive, and that two models
  would each start again at 1, is a property of this stand-in supplier, not
  of `glGenTextures`, which only promises names not in use. Each call also
  records the file it was asked to open, which is the model's directory,
  `/`, and the material's path.

## Model

| member | source | states |
|---|---|---|
| FilePaths.FindLastSeparator | model.h:64 | `find_last_of("/\\")`: no result exactly when the path holds no separator; otherwise a separator position with no separator after it |
| FilePaths.Directory | model.h:64 | the directory is a prefix of the path; the whole path when there is no `/` or `\`; otherwise it stops right before the last separator, which is excluded |
| FilePaths.DirectoryOfJoin | model.h:64 | the directory of `dir + "/" + name` is `dir` when the name holds no separator, and `dir + "/"` followed by the name's own directory when it holds one (`textures/wood.png` lies in `dir/textures`) |
| TextureFormat.FormatFor | model.h:156-162 | a format is chosen exactly for 1, 3 or 4 channels, and the chosen format has as many components as the image has channels |
| TextureFormat.FormatForComponents | model.h:156-162 | each of GL_RED, GL_RGB and GL_RGBA is chosen for its own component count, so the mapping is one-to-one |
| Decimal.ToDecimal | mesh.h:50-52 | `std::to_string` of a counter is a non-empty string of decimal digits with no leading zero |
| Decimal.ValueOfToDecimal | mesh.h:50-52 | reading the digits back gives the counter: rendering round-trips |
| Decimal.ToDecimalInjective | mesh.h:50-52 | two counters get the same text exactly when they are equal |
| MeshDraw.Mesh.Draw | mesh.h:40-61 | texture i is activated on unit i, its sampler uniform is set to i and its texture name is bound; the uniform name is the type plus the running diffuse or specular counter, or the bare type otherwise; the counters equal 1 plus the matching textures seen so far; the draw call covers all indices |
| MeshDraw.SamplerNumberInRange | mesh.h:47-53 | the k-th diffuse (or specular) texture in list order gets the number k, with 1 <= k <= the number of textures of that type |
| MeshDraw.SamplerNumberReached | mesh.h:47-53 | every number from 1 to the count of a diffuse (or specular) type is used: some texture of that type is bound under the type followed by that number |
| MeshDraw.SamplerNameShape | mesh.h:47-55 | a sampler name starts with the texture's type, and equals the type exactly when it is neither diffuse nor specular |
| MeshDraw.SamplerNamesDistinct | mesh.h:47-53 | two diffuse or specular textures at different positions never share a uniform name |
| Scene.PreOrderInRange | model.h:70-79 | a well-formed node tree only refers to meshes that exist |
| Scene.PreOrderLength | model.h:70-79 | the pre-order has one entry per mesh reference: its length is the sum of `mNumMeshes` over the subtree |
| Scene.PreOrderMembers | model.h:70-79 | a mesh index occurs in the pre-order exactly when some node of the subtree lists it |
| LoadingSpec.FirstHit | model.h:119-127 | finds the position where the loop of `loadMaterialTextures` first meets a cached path |
| LoadingSpec.LoadTexturesBeforeFirstHit | model.h:117-139 | before the first hit every path is loaded in order, with the requested type and consecutive new texture names, and its file is requested; at the hit exactly one more texture is appended and nothing later is loaded |
| LoadingSpec.LoadTexturesCacheUpdate | model.h:129-136 | the cache afterwards holds every earlier entry unchanged, plus exactly the paths loaded, each mapped to its new texture; no entry is ever removed |
| LoadingSpec.LoadTexturesHitIsCached | model.h:122-127 | the texture appended at the hit is the cached one for that path, unchanged (its original type and texture name) |
| LoadingSpec.LoadTexturesAtMostCount | model.h:117-139 | the result never has more entries than `GetTextureCount(type)` |
| LoadingSpec.LoadTexturesKeepsCacheValid | model.h:117-139 | loading keeps each cache entry keyed by its own path with a distinct texture name, and each returned texture belongs to the path at its position |
| LoadingSpec.FaceIndicesLength | model.h:98-103 | the index list has the sum of `mNumIndices` entries |
| LoadingSpec.FaceIndicesAt | model.h:98-103 | index j of face i sits at the sum of the earlier faces' index counts plus j: faces are concatenated in face order |
| LoadingSpec.ProcessAllAppend | model.h:70-79 | building meshes for a + b is building them for a, then for b from the state a leaves |
| LoadingSpec.ProcessAllGeometry | model.h:70-95 | one mesh is built per reference, in reference order, with the vertices and indices of the referenced imported mesh |
| LoadingSpec.ProcessAllKeepsCacheValid | model.h:70-136 | the cache stays consistent over a whole scene, and every texture of every built mesh has a texture name handed out by then |
| ModelLoader.CopyVertices | model.h:84-95 | exactly `mNumVertices` vertices; vertex i copies position i and normal i, and its texture coordinates are channel-0 coordinate i or (0, 0) when channel 0 is absent |
| ModelLoader.ConcatFaceIndices | model.h:97-103 | the indices are the faces' index lists concatenated in face order, with the sum of `mNumIndices` entries |
| ModelLoader.Model.constructor | model.h:36-38 | a new model holds the meshes of the scene in pre-order, one per mesh reference, each with the geometry of its imported mesh, and a consistent cache |
| ModelLoader.Model.LoadModel | model.h:57-68 | sets `directory` to the directory of the path, then appends the meshes of the whole tree in pre-order, keeping the cache consistent |
| ModelLoader.Model.ProcessNode | model.h:70-79 | appends the meshes built for the subtree's pre-order: the node's own meshes in index order, then each child subtree left to right |
| ModelLoader.Model.ProcessMesh | model.h:81-115 | the mesh holds the copied vertices, the concatenated face indices, and the material's diffuse textures followed by its specular textures, each group in the order loaded |
| ModelLoader.Model.LoadMaterialTextures | model.h:117-139 | follows the cache-or-load loop with its stop at the first cached path; returns at most `GetTextureCount(type)` textures and never removes or changes a cache entry |
| ModelLoader.Model.LoadTextureFromFile | model.h:141-174 | requests the image file once and returns a texture name not handed out before |
| ModelLoader.Model.Draw | model.h:40-44 | draws every mesh, in list order |

## Left out

- All OpenGL, GLFW and GLAD calls: the buffer and vertex-array setup of `Mesh::setUp` (mesh.h:66-88), `glTexImage2D`, `glTexParameteri`, mipmap generation, `glBindVertexArray`, and the actual `glDrawElements`. `Draw` records the bindings and the element count only.
- MeshDraw.Mesh.Draw: the counters and texture units are unbounded naturals; the 32-bit wrap-around of the source's `unsigned` values is not modelled, as it needs more than four billion textures on one mesh.
- Assimp's `ReadFile` is not modelled: the imported scene is an input. Its error path in `loadModel` (model.h:60-62), which prints a message and then dereferences the possibly missing scene, is excluded by requiring a well-formed scene, and the logging of the directory to `cerr` (model.h:65) is left out as output. A well-formed scene has normals and one entry per vertex in each channel read (model.h:87-90), a material index below `mNumMaterials` for every mesh (model.h:107), and only node mesh indices below `mNumMeshes` (model.h:73).
- Texture types other than diffuse and specular are not modelled, since `processMesh` asks for those two only.
- `stbi_load` image decoding and its failure branch (model.h:146-169) are not modelled. The texture name is handed out whether or not the image decodes. `FormatFor` gives no format for channel counts other than 1, 3 and 4; the source then passes an uninitialised format to `glTexImage2D`.
- `getPath` (model.h:27-30) is taken as the identity, since `make_preferred` depends on the platform's path separator.
- Floating-point vertex data are modelled as reals; the loader only copies them.
- ModelLoader.Model.ProcessNode, ModelLoader.Model.ProcessMesh and ModelLoader.Model.LoadMaterialTextures do not restate cache consistency; it is proved once about the loading functions (`LoadingSpec.ProcessAllKeepsCacheValid`) and ensured by `LoadModel` and the constructor.
- The lighting sample (2-lighting/lighting.cpp), the model-loading sample's window and camera code and its duplicate texture loader (3-model-loading/model.cpp), the shader wrapper (shader.h, shader.cpp) and the window-only learn-opengl.cpp are not part of this model: they consist of windowing, floating-point shading and camera code, and thin wrappers over OpenGL.
