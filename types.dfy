/** The shared value types of the application (types.ts) and the browser `File` it passes around. */
module Types {

  /** An edited image as returned by the model: base64 payload and its media type (types.ts:1-4). */
  datatype EditedImage = EditedImage(data: string, mimeType: string)

  /** The workflow states of the top-level page (types.ts:6-13). `Uploading` is declared but never entered. */
  datatype AppState = Idle | Uploading | ReadyToEdit | Processing | Complete | Error

  /** A canned instruction offered as a button (types.ts:15-19); `title` is the source's `label`. */
  datatype PresetPrompt = PresetPrompt(title: string, text: string, icon: string)

  /** A user-selected file; only its declared media type (`File.type`) matters; `name` only tells files apart. */
  datatype File = File(name: string, fileType: string)
}
