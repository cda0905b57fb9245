/** The records the repositories store (src/database/models). */
module Models {

  /**
   * A UUID, held as its canonical text (what `ID.String()` yields and what
   * the in-memory repositories use as a key).
   */
  type Uuid = string

  /** The text of the zero UUID, `uuid.UUID{}.String()`. */
  const NilUuid: Uuid := "00000000-0000-0000-0000-000000000000"

  /** models.Order */
  datatype Order = Order(id: Uuid, itemsCount: int, packCount: int)

  /** models.Order{}, what a failed fetch returns beside its error. */
  const ZeroOrder: Order := Order(NilUuid, 0, 0)

  /** models.PackSize */
  datatype PackSize = PackSize(id: Uuid, size: int)

  /** A Go `error` result: nil, or an error carrying its message. */
  datatype Status = Ok | Failed(message: string)
}
