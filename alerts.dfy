/**
 * What `Alert.alert` shows: a title and a message. A confirmation dialog's
 * answer is a parameter of the handler that opens it.
 */
module Alerts {
  import opened JsString

  datatype Notice = Notice(title: String, message: String)

  const ErrorTitle: String := "Hata"
  const SuccessTitle: String := "Başarılı"
  const InfoTitle: String := "Bilgi"
  const LoginRequiredTitle: String := "Giriş Gerekli"
}
