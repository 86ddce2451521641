/**
 * The earlier snapshot of the IR (package `wzh.varcheck.lang`) reads
 * `Value`, `Symbol` and `Type` classes whose definitions are not part of
 * this model.  They stand here as plain values: a symbol carries its name
 * and an opaque type identifier, a non-symbol value an opaque identifier.
 * Equality on them is structural.
 */
module SnapshotValues {
  datatype Type = Type(id: nat)

  datatype Symbol = Symbol(name: string, ty: Type)

  datatype Value = Sym(sym: Symbol) | Other(id: nat)
}
