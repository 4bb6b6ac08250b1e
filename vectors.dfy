/**
 * Small vectors shared by the importer's scene (aiVector3D) and the renderer's
 * vertex layout (glm::vec3, glm::vec2). The loader only copies components,
 * so they are kept as reals.
 */
module Vectors {

  datatype Vec3 = Vec3(x: real, y: real, z: real)

  datatype Vec2 = Vec2(x: real, y: real)

}
