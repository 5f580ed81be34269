/** One `localStorage` key, seen through `JSON.parse`. The stores read a slot,
    decode it, and on a successful write replace it by the JSON object they
    wrote. */
module Storage {

  datatype Slot<T> =
    | Absent                    // getItem returned null
    | Unparseable(raw: string)  // text JSON.parse rejects; "" is stored empty text
    | JsonString(s: string)     // text that parses to a JSON string
    | JsonObject(value: T)      // text that parses to a JSON object
    | OtherJson                 // text that parses to an array, number, boolean or null

  /** `!stored`: nothing is stored, or the stored text is empty. */
  predicate IsBlank<T>(slot: Slot<T>)
  {
    slot.Absent? || slot == Unparseable("")
  }
}
