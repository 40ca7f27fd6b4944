/**
 * The values that flow between the store, the gallery file and the
 * external Python processes.
 */
module Records {

  /** One row of the `users` table: the serial id, the array literal that
      was inserted into the `biometric_id` column, and the email. */
  datatype Row = Row(id: int, biometricId: string, email: string)

  /** Go's `storage.UserEmbedding`. An empty email is left out of the JSON
      export (`omitempty`). */
  datatype UserEmbedding = UserEmbedding(userId: int, embedding: seq<real>, email: string)

  /** The file `gallery_embeddings.npy`: either the list of embeddings the
      converter last saved, or a file the converter left half written. */
  datatype Gallery = Snapshot(entries: seq<UserEmbedding>) | Corrupt

  /** The outcome of `exec.Command(...).CombinedOutput()`: a zero exit status
      with the captured output, or an error (non-zero exit, failure to
      start) with whatever output was captured. */
  datatype ProcessResult = Exited(output: string) | Failed(output: string)

  /** The ids a gallery offers to the matcher. */
  function GalleryIds(g: Gallery): (ids: set<int>)
    ensures g.Corrupt? ==> ids == {}
    ensures forall e | g.Snapshot? && e in g.entries :: e.userId in ids
  {
    match g
    case Corrupt => {}
    case Snapshot(entries) => set e | e in entries :: e.userId
  }
}
