/** The names of the document fields and of the item types. */
module Fields {
  const AI_MODEL := "adex:AiModel"
  const DATA_BANK := "adex:DataBank"
  const APPS := "adex:Apps"
  const ID := "id"
  const NAME := "name"
  const TYPE := "type"
  const TAGS := "tags"
  const ACCESS_POLICY := "accessPolicy"
  const OWNER := "ownerUserId"
  const MEDIA_URL := "mediaURL"
  const DATA_UPLOAD_STATUS := "dataUploadStatus"
  const PUBLISH_STATUS := "publishStatus"
  const PENDING := "PENDING"
}
