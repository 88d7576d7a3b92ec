/** The mutators as the schema database and the mutation system see them. */
module Mutators {
  import opened Types
  import opened PathAst

  /**
   * An Assign exposes a schema through its path and the kinds it is bound to; an AssignMetadata
   * does not. The rest of a mutator's specification is opaque text.
   */
  datatype Mutator =
    | Assign(id: ID, path: Path, bindings: seq<GVK>, spec: string)
    | AssignMetadata(id: ID, path: Path, spec: string)
  {
    /** Any difference in type, ID, path, bindings or specification; path and bindings come from the specification. */
    predicate HasDiff(other: Mutator) {
      this != other
    }
  }
}
