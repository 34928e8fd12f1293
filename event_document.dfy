/** The name of a generated event document: a short uuid prefix, an underscore,
    then the template's file name. */
module EventDocument {

  /** The number of uuid characters kept in a document name. */
  const UuidPrefixLength: nat := 5

  function Min(a: nat, b: nat): nat {
    if a < b then a else b
  }

  /** `generateFilename`: at most five characters of the event's uuid, "_", the template. */
  function GenerateFilename(uuid: string, templateFile: string): (name: string)
    ensures var k := Min(UuidPrefixLength, |uuid|);
      |name| == k + 1 + |templateFile| &&
      name[..k] == uuid[..k] &&
      name[k] == '_' &&
      name[k + 1..] == templateFile
    ensures |uuid| <= UuidPrefixLength ==> name[..|uuid|] == uuid
    ensures |uuid| >= UuidPrefixLength ==> name[..UuidPrefixLength] == uuid[..UuidPrefixLength]
  {
    uuid[..Min(UuidPrefixLength, |uuid|)] + "_" + templateFile
  }

  /** For one event, different templates give different document names. */
  lemma TemplateRecoverable(uuid: string, t1: string, t2: string)
    requires GenerateFilename(uuid, t1) == GenerateFilename(uuid, t2)
    ensures t1 == t2
  {
    var k := Min(UuidPrefixLength, |uuid|);
    assert GenerateFilename(uuid, t1)[k + 1..] == t1;
  }
}
