/**
 * The mesh of mesh.h: per-vertex data, a texture list and an index list, and
 * the sampler naming and texture binding that Mesh::Draw performs before it
 * issues the indexed draw call.
 */
module MeshDraw {

  import opened Vectors
  import opened Decimal

  /** Interleaved vertex attributes: position, normal, texture coordinates. */
  datatype Vertex = Vertex(position: Vec3, normal: Vec3, texCoords: Vec2)

  /** A loaded texture: the OpenGL texture name, its sampler type and the file it came from. */
  datatype Texture = Texture(id: nat, typeName: string, path: string)

  const DiffuseName: string := "texture_diffuse"
  const SpecularName: string := "texture_specular"

  /** Types whose sampler names carry a running number. */
  predicate IsNumbered(typeName: string) {
    typeName == DiffuseName || typeName == SpecularName
  }

  /**
   * What one iteration of the texture loop of Draw does: glActiveTexture on
   * `unit`, the sampler uniform `uniform` set to `unit`, and glBindTexture of
   * `textureId` on that unit.
   */
  datatype Binding = Binding(uniform: string, unit: nat, textureId: nat)

  /** Everything Draw issues: the bindings, then glDrawElements over `elementCount` indices. */
  datatype DrawCall = DrawCall(bindings: seq<Binding>, elementCount: nat)

  /** The number of textures of the given type in ts. */
  function CountOfType(ts: seq<Texture>, typeName: string): nat
    decreases |ts|
  {
    if ts == [] then 0
    else CountOfType(ts[..|ts| - 1], typeName) + (if ts[|ts| - 1].typeName == typeName then 1 else 0)
  }

  /**
   * The uniform name texture i is bound under: a diffuse or specular texture
   * gets its type followed by its 1-based rank among the textures of that
   * type up to and including itself; any other texture gets its type alone.
   */
  function SamplerName(ts: seq<Texture>, i: nat): string
    requires i < |ts|
  {
    var name := ts[i].typeName;
    if IsNumbered(name) then name + ToDecimal(CountOfType(ts[..i + 1], name)) else name
  }

  /** `call` is what drawing mesh m issues: texture i on unit i under its sampler name, then all indices. */
  ghost predicate DrawsMesh(call: DrawCall, m: Mesh) {
    && |call.bindings| == |m.textures|
    && (forall i :: 0 <= i < |m.textures| ==>
          call.bindings[i] == Binding(SamplerName(m.textures, i), i, m.textures[i].id))
    && call.elementCount == |m.indices|
  }

  /**
   * A mesh as Model::processMesh builds it. The constructor of mesh.h stores
   * its three vectors unchanged, which the datatype constructor does by
   * definition; Draw only reads them.
   */
  datatype Mesh = Mesh(vertices: seq<Vertex>, textures: seq<Texture>, indices: seq<nat>) {

    /**
     * Mesh::Draw: two counters, both starting at 1, number the diffuse and
     * the specular samplers independently while every texture is bound to the
     * unit equal to its position.
     */
    method Draw() returns (call: DrawCall)
      ensures DrawsMesh(call, this)
    {
      var nDiffuse: nat := 1;
      var nSpecular: nat := 1;
      var bindings: seq<Binding> := [];
      for i := 0 to |textures|
        invariant nDiffuse == 1 + CountOfType(textures[..i], DiffuseName)
        invariant nSpecular == 1 + CountOfType(textures[..i], SpecularName)
        invariant |bindings| == i
        invariant forall j :: 0 <= j < i ==>
          bindings[j] == Binding(SamplerName(textures, j), j, textures[j].id)
      {
        assert textures[..i + 1][..i] == textures[..i];
        var number := "";
        var name := textures[i].typeName;
        if name == DiffuseName {
          number := ToDecimal(nDiffuse);
          nDiffuse := nDiffuse + 1;
        } else if name == SpecularName {
          number := ToDecimal(nSpecular);
          nSpecular := nSpecular + 1;
        }
        bindings := bindings + [Binding(name + number, i, textures[i].id)];
      }
      call := DrawCall(bindings, |indices|);
    }
  }

  /** Counting over a longer prefix never gives less. */
  lemma {:induction false} CountPrefixMonotone(ts: seq<Texture>, typeName: string, i: nat, j: nat)
    requires i <= j <= |ts|
    ensures CountOfType(ts[..i], typeName) <= CountOfType(ts[..j], typeName)
    decreases j - i
  {
    if i < j {
      assert ts[..j][..j - 1] == ts[..j - 1];
      CountPrefixMonotone(ts, typeName, i, j - 1);
    }
  }

  /**
   * A diffuse or specular texture's number lies between 1 and the count of
   * its type; SamplerNumberReached shows that each number in that range is used.
   */
  lemma SamplerNumberInRange(ts: seq<Texture>, i: nat)
    requires i < |ts| && IsNumbered(ts[i].typeName)
    ensures var t := ts[i].typeName;
      var k := CountOfType(ts[..i + 1], t);
      1 <= k <= CountOfType(ts, t) && Value(SamplerName(ts, i)[|t|..]) == k
  {
    var t := ts[i].typeName;
    var k := CountOfType(ts[..i + 1], t);
    assert ts[..i + 1][..i] == ts[..i];
    assert ts[..|ts|] == ts;
    CountPrefixMonotone(ts, t, i + 1, |ts|);
    assert SamplerName(ts, i)[|t|..] == ToDecimal(k);
    ValueOfToDecimal(k);
  }

  /**
   * Every number from 1 to the count of a diffuse or specular type is used:
   * some texture of that type is bound under the type followed by it.
   */
  lemma {:induction false} SamplerNumberReached(ts: seq<Texture>, t: string, k: nat)
    requires IsNumbered(t) && 1 <= k <= CountOfType(ts, t)
    ensures exists i :: 0 <= i < |ts| && ts[i].typeName == t && SamplerName(ts, i) == t + ToDecimal(k)
    decreases |ts|
  {
    var n := |ts|;
    var front := ts[..n - 1];
    if ts[n - 1].typeName == t && k == CountOfType(ts, t) {
      assert ts[..n] == ts;
      assert SamplerName(ts, n - 1) == t + ToDecimal(k);
    } else {
      SamplerNumberReached(front, t, k);
      var i :| 0 <= i < |front| && front[i].typeName == t && SamplerName(front, i) == t + ToDecimal(k);
      assert front[..i + 1] == ts[..i + 1];
      assert SamplerName(ts, i) == SamplerName(front, i);
    }
  }

  /**
   * A sampler name starts with the texture's type, and it is the type alone
   * exactly when the type is neither diffuse nor specular.
   */
  lemma SamplerNameShape(ts: seq<Texture>, i: nat)
    requires i < |ts|
    ensures ts[i].typeName <= SamplerName(ts, i)
    ensures SamplerName(ts, i) == ts[i].typeName <==> !IsNumbered(ts[i].typeName)
  {
  }

  /**
   * Two diffuse or specular textures at different positions never share a
   * uniform name: within one type the counter has moved on, and the two
   * type prefixes differ.
   */
  lemma SamplerNamesDistinct(ts: seq<Texture>, i: nat, j: nat)
    requires i < j < |ts|
    requires IsNumbered(ts[i].typeName) && IsNumbered(ts[j].typeName)
    ensures SamplerName(ts, i) != SamplerName(ts, j)
  {
    var ti, tj := ts[i].typeName, ts[j].typeName;
    var a, b := SamplerName(ts, i), SamplerName(ts, j);
    if ti == tj {
      var ki := CountOfType(ts[..i + 1], ti);
      var kj := CountOfType(ts[..j + 1], ti);
      assert ts[..j + 1][..j] == ts[..j];
      CountPrefixMonotone(ts, ti, i + 1, j);
      assert ki < kj;
      ToDecimalInjective(ki, kj);
      assert a[|ti|..] == ToDecimal(ki);
      assert b[|ti|..] == ToDecimal(kj);
    } else {
      assert a[8] == ti[8];
      assert b[8] == tj[8];
    }
  }

}
