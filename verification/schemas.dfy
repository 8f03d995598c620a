/** Schema descriptions as the resolution engine sees them. The schema library itself is not part of
    this model: a schema is an abstract tree whose leaves may be placeholder references to interface
    entities, dereferencing substitutes bound entity schemas for those references, and merging two
    object schemas unites their fields. */
module Schemas {

  datatype Schema =
    | Ref(entity: string)                  // placeholder for an interface entity
    | Scalar(kind: string)                 // "string", "number", "boolean", ...
    | Object(fields: map<string, Schema>)
    | Array(items: Schema)

  /** The fields of a top-level object schema (action input/output, event payload, message). */
  type Shape = map<string, Schema>

  /** The placeholders a schema still refers to. */
  function Refs(s: Schema): set<string>
  {
    match s
    case Ref(p) => {p}
    case Scalar(_) => {}
    case Object(fields) => set k, p | k in fields && p in Refs(fields[k]) :: p
    case Array(items) => Refs(items)
  }

  function ShapeRefs(shape: Shape): set<string>
  {
    set k, p | k in shape && p in Refs(shape[k]) :: p
  }

  /** Every placeholder bound to a schema that is itself free of placeholders. */
  ghost predicate ConcreteBindings(env: map<string, Schema>)
  {
    forall p :: p in env ==> Refs(env[p]) == {}
  }

  /** Substitutes the bound schema for every reference to a bound placeholder; a reference to an
      unbound placeholder is left as it is. */
  function Deref(s: Schema, env: map<string, Schema>): (r: Schema)
    ensures s.Ref? && s.entity in env ==> r == env[s.entity]
    ensures s.Ref? && s.entity !in env ==> r == s
    ensures s.Scalar? ==> r == s
    ensures s.Object? ==> r.Object? && r.fields.Keys == s.fields.Keys
    ensures s.Array? ==> r.Array?
  {
    match s
    case Ref(p) => if p in env then env[p] else s
    case Scalar(_) => s
    case Object(fields) => Object(map k | k in fields :: Deref(fields[k], env))
    case Array(items) => Array(Deref(items, env))
  }

  /** `schema.dereference(entitySchemas)` on a top-level object schema. */
  function DerefShape(shape: Shape, env: map<string, Schema>): (r: Shape)
    ensures r.Keys == shape.Keys
  {
    map k | k in shape :: Deref(shape[k], env)
  }

  /** `a.merge(b)` on object schemas: the fields of both, and where both have a field of the same
      name, the one of `b`. */
  function MergeShape(a: Shape, b: Shape): (r: Shape)
    ensures r.Keys == a.Keys + b.Keys
    ensures forall k :: k in b ==> r[k] == b[k]
    ensures forall k :: k in a && k !in b ==> r[k] == a[k]
  {
    a + b
  }

  /** A schema that mentions no bound placeholder comes back unchanged: dereferencing an
      already concrete schema is the identity. */
  lemma {:induction false} DerefUnbound(s: Schema, env: map<string, Schema>)
    requires Refs(s) !! env.Keys
    ensures Deref(s, env) == s
  {
    match s
    case Ref(p) =>
    case Scalar(_) =>
    case Object(fields) =>
      forall k | k in fields
        ensures Deref(fields[k], env) == fields[k]
      {
        assert Refs(fields[k]) <= Refs(s);
        DerefUnbound(fields[k], env);
      }
      assert (map k | k in fields :: Deref(fields[k], env)) == fields;
    case Array(items) =>
      DerefUnbound(items, env);
  }

  /** With concrete bindings, exactly the unbound placeholders survive dereferencing. */
  lemma {:induction false} DerefRefs(s: Schema, env: map<string, Schema>)
    requires ConcreteBindings(env)
    ensures Refs(Deref(s, env)) == Refs(s) - env.Keys
  {
    match s
    case Ref(p) =>
    case Scalar(_) =>
    case Object(fields) =>
      var fields' := map k | k in fields :: Deref(fields[k], env);
      forall k | k in fields
        ensures Refs(fields'[k]) == Refs(fields[k]) - env.Keys
      {
        DerefRefs(fields[k], env);
      }
      assert Deref(s, env) == Object(fields');
      forall p | p in Refs(Object(fields'))
        ensures p in Refs(s) - env.Keys
      {
        var k :| k in fields' && p in Refs(fields'[k]);
      }
      forall p | p in Refs(s) - env.Keys
        ensures p in Refs(Object(fields'))
      {
        var k :| k in fields && p in Refs(fields[k]);
        assert p in Refs(fields'[k]);
      }
    case Array(items) =>
      DerefRefs(items, env);
  }

  /** The same for a top-level object schema: with concrete bindings, exactly its unbound
      placeholders survive. */
  lemma DerefShapeRefs(shape: Shape, env: map<string, Schema>)
    requires ConcreteBindings(env)
    ensures ShapeRefs(DerefShape(shape, env)) == ShapeRefs(shape) - env.Keys
  {
    var shape' := DerefShape(shape, env);
    forall k | k in shape
      ensures Refs(shape'[k]) == Refs(shape[k]) - env.Keys
    {
      DerefRefs(shape[k], env);
    }
    forall p | p in ShapeRefs(shape')
      ensures p in ShapeRefs(shape) - env.Keys
    {
      var k :| k in shape' && p in Refs(shape'[k]);
    }
    forall p | p in ShapeRefs(shape) - env.Keys
      ensures p in ShapeRefs(shape')
    {
      var k :| k in shape && p in Refs(shape[k]);
      assert p in Refs(shape'[k]);
    }
  }

  /** Dereferencing is total on a schema whose placeholders are all bound: nothing is left to
      substitute. */
  lemma DerefCloses(s: Schema, env: map<string, Schema>)
    requires ConcreteBindings(env)
    requires Refs(s) <= env.Keys
    ensures Refs(Deref(s, env)) == {}
  {
    DerefRefs(s, env);
  }

  /** Dereferencing twice against concrete bindings is dereferencing once. */
  lemma DerefIdempotent(s: Schema, env: map<string, Schema>)
    requires ConcreteBindings(env)
    ensures Deref(Deref(s, env), env) == Deref(s, env)
  {
    DerefRefs(s, env);
    DerefUnbound(Deref(s, env), env);
  }

  /** The same for a top-level object schema. */
  lemma DerefShapeIdempotent(shape: Shape, env: map<string, Schema>)
    requires ConcreteBindings(env)
    ensures DerefShape(DerefShape(shape, env), env) == DerefShape(shape, env)
  {
    forall k | k in shape
      ensures Deref(Deref(shape[k], env), env) == Deref(shape[k], env)
    {
      DerefIdempotent(shape[k], env);
    }
  }

  /** Merging then dereferencing is dereferencing then merging. */
  lemma DerefMerge(a: Shape, b: Shape, env: map<string, Schema>)
    ensures DerefShape(MergeShape(a, b), env) == MergeShape(DerefShape(a, env), DerefShape(b, env))
  {
  }

  /** Two contributions with disjoint fields can be merged into a base in either order. */
  lemma MergeShapeCommutes(base: Shape, x: Shape, y: Shape)
    requires x.Keys !! y.Keys
    ensures MergeShape(MergeShape(base, x), y) == MergeShape(MergeShape(base, y), x)
  {
  }
}
