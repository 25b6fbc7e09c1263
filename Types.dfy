/** The media item record shared by the parsers, the load pipeline and the views. */
module Types {
  import opened Wrappers

  datatype MediaType = Image | Video | Unknown

  /**
   * One discovered file. `size` and `date` are optional free text; the
   * enrichment fields (`lat`, `lng`, `hasCheckedExif`) are not part of this model.
   */
  datatype MediaItem = MediaItem(
    id: string,
    name: string,
    url: string,
    kind: MediaType,
    size: Option<string>,
    date: Option<string>)
}
