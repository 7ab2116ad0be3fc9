/** The records the scanner produces and stores (types.ts). */
module Types {

  datatype Option<T> = None | Some(value: T)

  /** What the badge-text parser returns: every field of a scan record except
      the scan area and the timestamp, which the caller attaches. Access areas
      are single letters, so they are kept as characters. */
  datatype ParsedCard = ParsedCard(
    issuingAuthority: string,
    location: string,
    expiryDate: string,
    accessAreas: seq<char>,
    name: string,
    position: string,
    company: string,
    idNumber: string)

  /** A stored scan record; `scanTimestamp` is in milliseconds since the epoch. */
  datatype IdCardData = IdCardData(
    card: ParsedCard,
    scanArea: string,
    scanTimestamp: int)
}
