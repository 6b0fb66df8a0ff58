/** The kinds of Drive source a grantee can have. */
module Sources {

  const SOURCE_FOLDER := "folder"
  const SOURCE_DOC := "doc"

  predicate KnownSourceType(sourceType: string) {
    sourceType == SOURCE_FOLDER || sourceType == SOURCE_DOC
  }
}
