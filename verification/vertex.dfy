/** The mesh vertex (Vertex.h): a position, texture coordinates and a
    normal, in that order. The whole value is the key of the parser's
    de-duplication table: it is hashed as one block and compared field by
    field. */
module Vertices {
  import Vec2
  import Vec3

  datatype Vertex = Vertex(pos: Vec3.Vector3, uv: Vec2.Vector2, normal: Vec3.Vector3)

  /** `operator==`: the three fields compare equal. */
  predicate Eq(a: Vertex, b: Vertex) {
    Vec3.Eq(a.pos, b.pos) && Vec2.Eq(a.uv, b.uv) && Vec3.Eq(a.normal, b.normal)
  }

  /** Field-by-field equality is equality of the whole value, so a table
      keyed by the value finds exactly the vertices `operator==` accepts. */
  lemma EqIsEquality(a: Vertex, b: Vertex)
    ensures Eq(a, b) <==> a == b
  {
    Vec3.EqIsEquality(a.pos, b.pos);
    Vec2.EqIsEquality(a.uv, b.uv);
    Vec3.EqIsEquality(a.normal, b.normal);
  }

  /** Equality is symmetric, and a vertex equals itself. */
  lemma EqSymmetric(a: Vertex, b: Vertex)
    ensures Eq(a, b) <==> Eq(b, a)
    ensures Eq(a, a)
  {
    EqIsEquality(a, b);
    EqIsEquality(b, a);
    EqIsEquality(a, a);
  }
}
