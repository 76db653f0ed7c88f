/** The availability classifier: which result label is read from the last
    page of the booking flow, and how its text becomes the
    "appointments available" flag. */
module Classifier {
  import opened Schema

  /** The one message of the booking site that means "nothing to book". */
  const NoDates: string := "No date(s) available for appointment."

  /** The outcome of looking a label element up by its id: the element is
      missing, or it is there and its `.string` is `None` or a text. */
  datatype Element = Missing | Found(text: Option<string>)

  /** Python truthiness of an optional string. */
  predicate Truthy(s: Option<string>) {
    s.Some? && s.value != ""
  }

  /** `lblMsg.string or lblFillAppDetails.string`: the message label's text
      when it is non-empty, otherwise whatever the details label holds.  Reading
      `.string` of a missing element raises; the details label is looked up
      only when the message label's text is empty. */
  function Response(message: Element, details: Element): (r: Result<Option<string>>)
    ensures r.Raise? <==> message.Missing? || (!Truthy(message.text) && details.Missing?)
    ensures r.Raise? ==> r.e == Failure
    ensures r.Ok? && Truthy(message.text) ==> r.value == message.text
    ensures r.Ok? && !Truthy(message.text) ==> r.value == details.text
  {
    match message
    case Missing => Raise(Failure)
    case Found(text) =>
      if Truthy(text) then Ok(text)
      else match details
        case Missing => Raise(Failure)
        case Found(other) => Ok(other)
  }

  /** Appointments are considered available unless the response is exactly
      the "no dates" message; an absent or empty response counts as available. */
  function HaveAppointments(response: Option<string>): (h: bool)
    ensures !h <==> response == Some(NoDates)
    ensures response == None ==> h
    ensures response == Some("") ==> h
  {
    response != Some(NoDates)
  }

  /** Classifying the page's two labels: "no appointments" exactly when the
      message label reads the literal, or the message label is empty and the
      details label reads it. */
  lemma ClassifyLabels(message: Element, details: Element)
    requires Response(message, details).Ok?
    ensures !HaveAppointments(Response(message, details).value)
        <==> message.text == Some(NoDates)
             || (!Truthy(message.text) && details.text == Some(NoDates))
  {
    if !Truthy(message.text) {
      assert message.text != Some(NoDates);
    }
  }

  /** Two labels without text (absent or empty) read as "available". */
  lemma BlankLabelsMeanAvailable(message: Element, details: Element)
    requires message.Found? && details.Found?
    requires !Truthy(message.text) && !Truthy(details.text)
    ensures Response(message, details).Ok?
    ensures HaveAppointments(Response(message, details).value)
  {
    assert details.text != Some(NoDates);
  }
}
