/** The message contract shared by the presence server and its viewers. */
module Shared {

  /** A field that may be absent from a message (`undefined` on the wire). */
  datatype Option<+T> = None | Some(value: T)

  /**
   * One participant's position. `lat`, `lng` and `id` are required; `city`
   * and `country` are optional. Coordinates are only ever copied, never
   * computed on, so their floating-point nature plays no role.
   */
  datatype Position = Position(
    lat: real,
    lng: real,
    id: string,
    city: Option<string>,
    country: Option<string>)

  const AddMarkerTag: string := "add-marker"
  const RemoveMarkerTag: string := "remove-marker"

  /**
   * A message sent to viewers: a tagged union with exactly two variants.
   * `add-marker` carries one whole Position, `remove-marker` only an id.
   */
  datatype OutgoingMessage =
    | AddMarker(position: Position)
    | RemoveMarker(id: string)
  {
    /** The value of the message's `type` field on the wire. */
    function TypeTag(): (t: string)
      ensures t == AddMarkerTag || t == RemoveMarkerTag
      ensures t == AddMarkerTag <==> AddMarker?
      ensures t == RemoveMarkerTag <==> RemoveMarker?
    {
      match this
      case AddMarker(_) => AddMarkerTag
      case RemoveMarker(_) => RemoveMarkerTag
    }

    /** The participant id the message is about. */
    function Subject(): (s: string)
      ensures AddMarker? ==> s == position.id
      ensures RemoveMarker? ==> s == id
    {
      match this
      case AddMarker(p) => p.id
      case RemoveMarker(i) => i
    }
  }
}
