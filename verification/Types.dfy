/** Records shared by the mutation, watch and readiness models. */
module Types {

  /** Identifier of a mutation object. */
  datatype ID = ID(group: string, kind: string, namespace: string, name: string)

  /** A Kubernetes group, version and kind. */
  datatype GVK = GVK(group: string, version: string, kind: string)

  datatype Option<+T> = None | Some(value: T)

  predicate Distinct<T(==)>(s: seq<T>) {
    forall i, j :: 0 <= i < j < |s| ==> s[i] != s[j]
  }

  lemma Regroup(a: string, b: string, c: string, d: string)
    ensures a + (b + (c + d)) == a + b + c + d
  {
  }
}

/** The parsed form of a mutation location, such as `spec.containers[name: foo].image`. */
module PathAst {

  /** The key of a list element: the source holds nil, a string or an int64. */
  datatype KeyValue = NoKey | StrKey(str: string) | IntKey(num: int)

  datatype Node =
    | Object(reference: string)
    | List(keyField: string, keyValue: KeyValue, glob: bool)

  type Path = seq<Node>

  /**
   * The paths the parser can build: the first node is an Object, a List follows an Object,
   * and exactly the globbed lists have no key value.
   */
  ghost predicate ParserShaped(p: Path) {
    && (p != [] ==> p[0].Object?)
    && (forall i {:trigger p[i]} :: 0 < i < |p| && p[i].List? ==> p[i - 1].Object?)
    && (forall n :: n in p && n.List? ==> ListShaped(n))
  }

  ghost predicate ListShaped(n: Node)
    requires n.List?
  {
    && (n.glob <==> n.keyValue.NoKey?)
    && (n.keyValue.IntKey? ==> 0 <= n.keyValue.num < 0x8000_0000_0000_0000)
  }
}
