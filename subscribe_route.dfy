/** The email subscription endpoint: any email containing '@' is accepted; the
    book fields are read but play no part in the answer. */
module SubscribeRoute {
  import opened Common
  import opened Records
  import ContactRoute

  /** The fields of the JSON body; a field the body does not carry is `None`. */
  datatype SubscribeBody = SubscribeBody(email: Option<string>, bookSlug: Option<string>, bookTitle: Option<string>)

  /** The body of a successful answer. */
  datatype Subscribed = Subscribed(success: bool, message: string)

  const Thanks := "Thank you for subscribing. You will receive the companion reflection shortly."

  /** POST: 500 when the body cannot be read, 400 without an email containing '@',
      200 otherwise. */
  function Post(body: Option<SubscribeBody>): (resp: Response<Subscribed>)
    ensures body.None? ==> resp == Error(500, "Failed to process subscription. Please try again.")
    ensures resp.Json? <==> body.Some? && Truthy(body.value.email) && '@' in body.value.email.value
    ensures resp.Json? ==> resp == Json(200, Subscribed(true, Thanks))
    ensures body.Some? && !resp.Json? ==> resp == Error(400, "Please provide a valid email address.")
  {
    if body.None? then Error(500, "Failed to process subscription. Please try again.")
    else if !Truthy(body.value.email) || '@' !in body.value.email.value then
      Error(400, "Please provide a valid email address.")
    else Json(200, Subscribed(true, Thanks))
  }

  /** The answer depends on the email alone. */
  lemma BookIgnored(email: Option<string>, slug1: Option<string>, title1: Option<string>,
                    slug2: Option<string>, title2: Option<string>)
    ensures Post(Some(SubscribeBody(email, slug1, title1))) == Post(Some(SubscribeBody(email, slug2, title2)))
  {
  }

  /** The subscription check is far looser than the contact form's: an address
      the contact form refuses is still accepted here. */
  lemma LooserThanContact()
    ensures Post(Some(SubscribeBody(Some("@"), None, None))).Json?
    ensures !ContactRoute.MatchesEmail("@")
  {
    assert "@"[0] == '@';
  }
}
