/**
 * The parts of the symbol table the generator reads. The scope resolver that
 * builds symbol-table entries is not part of this model: an entry is reduced
 * to its storage class and the rendering of its address.
 */
module Scope {

  /** `Scope.InnerType`: the static type tag that drives instruction selection. */
  datatype InnerType = INT | FLOAT | PTR | VOID | STRING | INFER

  /**
   * `SymbolTableEntry` as seen by the generator: `isLocal()` and
   * `addressToString()` (a frame offset for a local, an absolute address for
   * a global).
   */
  datatype Sym = Sym(isLocal: bool, addr: string)

  /** The types the load/store selection accepts: INT, FLOAT and PTR. */
  predicate IsScalar(t: InnerType) { t == INT || t == FLOAT || t == PTR }
}
