/**
 * The stored content record (ContentModelInterface) shared by the server
 * and the client. The three file fields are optional: `None` is a field
 * that is absent from the record.
 */
module ContentModel {

  datatype Option<T> = None | Some(value: T)

  datatype Content = Content(
    id: string,
    title: string,
    contentType: string,
    uploadFile: Option<string>,
    uploadFileName: Option<string>,
    uploadFileMineType: Option<string>,
    comment: string)
}
