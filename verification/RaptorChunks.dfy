/** What both tree builders read and append. */
module RaptorChunks {

  /** A retrieval chunk: its text and its embedding, of any type. */
  datatype Chunk<E> = Chunk(text: string, embedding: E)
}
