/**
 * `getFirebaseErrorMessage`: the Spanish message shown for an error thrown
 * by the Firebase client, chosen by a chain of guards and then by a lookup
 * of the error's code in a fixed table.
 */
module FirebaseErrors {
  import opened Common

  /**
   * The parts of the thrown value the function reads, each as the string it
   * holds when that string is present. `Falsy` is `null`, `undefined` and the
   * other falsy values.
   */
  datatype ThrownError =
    | Falsy
    | ErrorObject(innerMessage: Option<string>,   // error.error.message
                  message: Option<string>,        // error.message
                  code: Option<string>)           // error.code

  const Generic := "Ocurrió un error inesperado. Por favor intenta nuevamente."
  const PasswordLoginDisabled := "El método de autenticación con email y contraseña no está habilitado. Por favor habilita \"Email/Password\" en Firebase Console."

  /** The code table. */
  const Messages: map<string, string> := map[
      "auth/operation-not-allowed" := "El método de autenticación no está habilitado. Por favor contacta al administrador.",
      "auth/user-not-found" := "No existe una cuenta con este correo electrónico.",
      "auth/wrong-password" := "La contraseña es incorrecta.",
      "auth/invalid-credential" := "El correo electrónico o la contraseña son incorrectos.",
      "auth/invalid-email" := "El correo electrónico no es válido.",
      "auth/user-disabled" := "Esta cuenta ha sido deshabilitada. Por favor contacta al administrador.",
      "auth/email-already-in-use" := "Este correo electrónico ya está registrado.",
      "auth/email-already-exists" := "Este correo electrónico ya está registrado.",
      "auth/weak-password" := "La contraseña es muy débil. Por favor usa una contraseña más segura (mínimo 6 caracteres).",
      "auth/too-many-requests" := "Demasiados intentos fallidos. Por favor intenta más tarde.",
      "auth/network-request-failed" := "Error de conexión. Por favor verifica tu conexión a internet.",
      "auth/popup-closed-by-user" := "La ventana de autenticación fue cerrada.",
      "auth/cancelled-popup-request" := "Solo se puede abrir una ventana de autenticación a la vez.",
      "auth/popup-blocked" := "La ventana emergente fue bloqueada por el navegador.",
      "auth/account-exists-with-different-credential" := "Ya existe una cuenta con este correo usando otro método de autenticación.",
      "auth/requires-recent-login" := "Por seguridad, por favor inicia sesión nuevamente.",
      "auth/invalid-verification-code" := "El código de verificación es inválido o ha expirado.",
      "auth/invalid-verification-id" := "El ID de verificación es inválido.",
      "auth/missing-verification-code" := "Por favor ingresa el código de verificación.",
      "auth/missing-verification-id" := "Error de verificación. Por favor intenta nuevamente.",
      "auth/quota-exceeded" := "Se ha excedido la cuota de solicitudes. Por favor intenta más tarde.",
      "auth/unauthorized-domain" := "Este dominio no está autorizado para esta aplicación.",
      "auth/configuration-not-found" := "La configuración de Firebase no se encontró.",
      "auth/invalid-api-key" := "La clave de API de Firebase no es válida.",
      "auth/app-not-authorized" := "Esta aplicación no está autorizada para usar Firebase."
    ]

  /** A string that JavaScript treats as true: present and non-empty. */
  predicate Truthy(s: Option<string>) {
    s.Some? && s.value != ""
  }

  /** `s || fallback` */
  function OrElse(s: Option<string>, fallback: string): (r: string)
    ensures Truthy(s) ==> r == s.value
    ensures !Truthy(s) ==> r == fallback
  {
    if Truthy(s) then s.value else fallback
  }

  /** Every entry of the table is a non-empty message. */
  lemma MessagesNonEmpty()
    ensures forall c | c in Messages :: Messages[c] != ""
  {
  }

  function ErrorMessage(e: ThrownError): (m: string)
    ensures e.Falsy? ==> m == Generic
    ensures e.ErrorObject? && (e.innerMessage == Some("PASSWORD_LOGIN_DISABLED") || e.message == Some("PASSWORD_LOGIN_DISABLED"))
      ==> m == PasswordLoginDisabled
    ensures e.ErrorObject? && e.innerMessage != Some("PASSWORD_LOGIN_DISABLED") && e.message != Some("PASSWORD_LOGIN_DISABLED") ==>
      && (!Truthy(e.code) ==> m == OrElse(e.message, Generic))
      && (Truthy(e.code) && e.code.value in Messages ==> m == Messages[e.code.value])
      && (Truthy(e.code) && e.code.value !in Messages ==> m == OrElse(e.message, Generic))
  {
    if e.Falsy? then Generic
    else if e.innerMessage == Some("PASSWORD_LOGIN_DISABLED") then PasswordLoginDisabled
    else if e.message == Some("PASSWORD_LOGIN_DISABLED") then PasswordLoginDisabled
    else if !Truthy(e.code) then OrElse(e.message, Generic)
    else if e.code.value in Messages && Messages[e.code.value] != "" then Messages[e.code.value]
    else OrElse(e.message, Generic)
  }

  /** Whatever is thrown, the message shown is never empty. */
  lemma ErrorMessageNonEmpty(e: ThrownError)
    ensures ErrorMessage(e) != ""
  {
    MessagesNonEmpty();
  }

  /** The disabled-password check comes before the code: it wins whatever the code says. */
  lemma PasswordLoginDisabledFirst(inner: Option<string>, message: Option<string>, code: Option<string>)
    requires inner == Some("PASSWORD_LOGIN_DISABLED") || message == Some("PASSWORD_LOGIN_DISABLED")
    ensures ErrorMessage(ErrorObject(inner, message, code)) == PasswordLoginDisabled
  {
  }
}
