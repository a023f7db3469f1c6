/**
 * The collaborators the matcher consumes: authority names and the string
 * comparator. Only the parts the matcher reads are modelled.
 */
module AuthorityNames {

  /** The `type` of a name. `Other` is any type string outside the four the matcher knows. */
  datatype NameType = Personal | Family | Corporate | Meeting | Other(tag: string)

  /**
   * The value of a name: what `uniq` compares. `sortKey` stands for the
   * position of the name in the ordering `<=>` gives to names, which the
   * ranking uses as its tie-break.
   */
  datatype NameRecord = NameRecord(
    kind: NameType,
    surname: string,
    forename: string,
    supplemental: string,
    basename: string,
    sortKey: int)

  /** A name object: `id` is its object identity, `record` its value. */
  datatype Name = Name(id: nat, record: NameRecord)
  {
    function Kind(): NameType { record.kind }
  }

  /** A trigram similarity; degenerate inputs (both strings empty) give NaN. */
  datatype Trigram = Similarity(value: real) | NaN

  /** The string comparator's metrics, as opaque functions of the two strings compared. */
  datatype Comparator = Comparator(
    levenshtein: (string, string) -> real,
    forenameTokens: (string, string) -> real,
    trigram: (string, string) -> Trigram)

  /**
   * Everything the matcher calls but does not define: the comparator and
   * the floating-point power `x ** 1.5`.
   */
  datatype Collaborators = Collaborators(compare: Comparator, pow15: real -> real)
}
