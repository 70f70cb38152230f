/**
 * The bilingual user-facing message table of doit-test-long/pkg/errors/message.go:
 * an English and an Indonesian text per error key, and a language-selecting lookup.
 */
module ErrorMessages {

  /** One entry of the table: the English (EN) and Indonesian (ID) text. */
  datatype ErrorMessage = ErrorMessage(en: string, id: string)

  /** Go's zero ErrorMessage, which a lookup of a missing key yields. */
  const ZeroMessage: ErrorMessage := ErrorMessage("", "")

  type ErrorMessages = map<string, ErrorMessage>

  /** The package's fixed table EM. */
  const EM: ErrorMessages := map[
    "internal" := ErrorMessage(
      "Internal Server Error. Please Call Administrator.",
      "Terjadi Kendala Pada Server. Mohon Hubungi Administrator."),
    "notfound" := ErrorMessage(
      "Record Does Not Exist. Please Validate Your Input Or Contact Administrator.",
      "Data Tidak Diketemukan. Mohon Cek Kembali Masukkan Anda Atau Hubungi Administrator."),
    "badrequest" := ErrorMessage(
      "Invalid Input. Please Validate Your Input.",
      "Kesalahan Input. Mohon Cek Kembali Masukkan Anda."),
    "unauthorized" := ErrorMessage(
      "Unauthorized Access. You are not authorized to access this resource.",
      "Akses Ditolak. Anda Belum Diijinkan Untuk Mengakses Aplikasi."),
    "uniqueconst" := ErrorMessage(
      "Record has existed and must be unique. Please Validate Your Input Or Contact Administrator.",
      "Data sudah ada. Mohon Cek Kembali Masukkan Anda Atau Hubungi Administrator.")
  ]

  /** Go's map index `em[key]`: the entry, or the zero value when the key is absent. */
  function Entry(em: ErrorMessages, key: string): (m: ErrorMessage)
    ensures key in em ==> m == em[key]
    ensures key !in em ==> m == ZeroMessage
  {
    if key in em then em[key] else ZeroMessage
  }

  /** ErrorMessages.Message: the Indonesian text for language "ID", the English text otherwise. */
  function Message(em: ErrorMessages, lang: string, key: string): (text: string)
    ensures key in em && lang == "ID" ==> text == em[key].id
    ensures key in em && lang != "ID" ==> text == em[key].en
    ensures key !in em ==> text == ""
  {
    if lang == "ID" then Entry(em, key).id else Entry(em, key).en
  }

  /** The table has exactly five keys, each with a non-empty text in both languages. */
  lemma EMKeysAndTexts()
    ensures EM.Keys == {"internal", "notfound", "badrequest", "unauthorized", "uniqueconst"}
    ensures forall k :: k in EM ==> EM[k].en != "" && EM[k].id != ""
  {
  }

  /** So every key of EM gets a non-empty message in any language, and only those keys do. */
  lemma EMMessageNonEmpty(lang: string, key: string)
    ensures Message(EM, lang, key) != "" <==> key in EM
  {
    EMKeysAndTexts();
  }
}
