/**
 * The key the OBJ loader deduplicates vertices on: the triple of attribute
 * indices of one triangle corner, its equality and its hash.
 */
module VertexKeys {

  /** Position, normal and texture-coordinate index of one corner occurrence. */
  datatype VertexKey = VertexKey(vertexIndex: int, normalIndex: int, texcoordIndex: int)

  /** VertexKey::operator==: all three indices agree. It is exactly value equality of keys. */
  function KeyEquals(a: VertexKey, b: VertexKey): (r: bool)
    ensures r <==> a == b
  {
    a.vertexIndex == b.vertexIndex && a.normalIndex == b.normalIndex && a.texcoordIndex == b.texcoordIndex
  }

  /**
   * std::hash<int> as libstdc++ and libc++ define it on a 64-bit target: the
   * identity, the int converted to a 64-bit size_t with sign extension. The
   * C++ standard leaves std::hash<int> unspecified (MSVC hashes with
   * FNV-1a), so this fixes one common implementation.
   */
  function HashInt(i: int): bv64
  {
    (i % 0x1_0000_0000_0000_0000) as bv64
  }

  /** hash_combine: mixes the hash `h` of one more field into `seed`, in 64-bit wrap-around arithmetic. */
  function HashCombine(seed: bv64, h: bv64): bv64
  {
    seed ^ (h + 0x9e37_79b9 + (seed << 6) + (seed >> 2))
  }

  /** std::hash<VertexKey>: the three indices combined in declaration order, starting from seed 0. */
  function Hash(k: VertexKey): bv64
  {
    HashCombine(HashCombine(HashCombine(0, HashInt(k.vertexIndex)), HashInt(k.normalIndex)), HashInt(k.texcoordIndex))
  }

  /**
   * The indices are combined in declaration order: for example, (1, 0, 0)
   * hashes differently from (0, 1, 0) and from (0, 0, 1).
   */
  lemma HashOrderMatters()
    ensures Hash(VertexKey(1, 0, 0)) != Hash(VertexKey(0, 0, 1))
    ensures Hash(VertexKey(1, 0, 0)) != Hash(VertexKey(0, 1, 0))
  {
    assert HashInt(0) == 0 && HashInt(1) == 1;
    var one := HashCombine(0, 1);
    var zero := HashCombine(0, 0);
    assert one == 0x9e37_79ba && zero == 0x9e37_79b9;
    var a := HashCombine(HashCombine(one, 0), 0);
    var b := HashCombine(HashCombine(zero, 0), 1);
    var c := HashCombine(HashCombine(zero, 1), 0);
    assert a != b && a != c;
  }

  /** Keys that compare equal hash equally, as an unordered_map key requires. */
  lemma HashRespectsEquality(a: VertexKey, b: VertexKey)
    requires KeyEquals(a, b)
    ensures Hash(a) == Hash(b)
  {
  }
}
