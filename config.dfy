/** The configuration values the core reads (backend/app/core/config.py defaults). */
module Config {
  const ChunkSize: nat := 1000
  const ChunkOverlap: nat := 200
  /** 10 MB, in bytes. */
  const MaxFileSize: nat := 10 * 1024 * 1024
  const AllowedExtensions: seq<string> := [".txt", ".pdf"]
  /** `str(settings.ALLOWED_EXTENSIONS)`, as interpolated into the rejection message. */
  const AllowedExtensionsRepr: string := "['.txt', '.pdf']"
  /** `settings.MAX_FILE_SIZE / (1024 * 1024)` rendered by Python. */
  const MaxFileSizeMbRepr: string := "10.0"
  const UploadDir: string := "./uploads"
  /** The dimension of the OpenAI embedding the mock imitates. */
  const EmbeddingDimension: nat := 1536
  const DigestLength: nat := 32
}
