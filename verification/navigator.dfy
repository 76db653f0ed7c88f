/** The form navigator: the fixed three-request walk through the booking
    site (welcome page, appointment type page, application page) and the
    result text read from the last page.  The site itself is a parameter:
    a function from the request made to the page fetched or the exception
    raised. */
module Navigator {
  import opened Schema
  import opened Form
  import opened Classifier

  /** A parsed page, reduced to what the flow looks up by id: the form
      `frmWeb` (if present) and the two result labels. */
  datatype Page = Page(form: Option<Form>, message: Element, details: Element)

  /** The stage names under which the three requests are made. */
  datatype Stage = Welcome | AppointmentType | Application

  datatype HttpMethod = Get | Post

  /** Where a request goes: the welcome page, or the form's `action` resolved
      against the site's base URL (the resolution itself is not modelled). */
  datatype Url = WelcomePage | Joined(action: Option<string>)

  datatype Request = Request(stage: Stage, verb: HttpMethod, url: Url, data: Option<Fields>)

  /** The site's answer to one request. */
  datatype Fetched = Loaded(page: Page) | Failed(e: Exception)

  /** The requests made, in order, and the result text or the exception. */
  datatype Navigation = Navigation(requests: seq<Request>, result: Result<Option<string>>)

  const WelcomeRequest: Request := Request(Welcome, Get, WelcomePage, None)

  /** True when the posted data never carries the cancel or back button. */
  predicate NoExcludedKeys(r: Request) {
    r.data.Some? ==> Some(CancelButton) !in r.data.value && Some(BackButton) !in r.data.value
  }

  /** One watching tick's walk through the site.  A missing form raises
      (attribute lookup on `None`), as does a missing result label. */
  function Navigate(site: Request -> Fetched): (n: Navigation)
    ensures 1 <= |n.requests| <= 3 && n.requests[0] == WelcomeRequest
    ensures n.result.Ok? ==> |n.requests| == 3
    // every request but the last was answered with a page
    ensures forall j :: 0 <= j < |n.requests| - 1 ==> site(n.requests[j]).Loaded?
    // the two POSTs carry the extracted fields and the protocol keys, never the excluded buttons
    ensures forall j :: 0 < j < |n.requests| ==>
              n.requests[j].verb == Post && n.requests[j].data.Some? && NoExcludedKeys(n.requests[j])
    ensures |n.requests| >= 2 ==>
              var d := n.requests[1].data.value;
              Some(EventTarget) in d && d[Some(EventTarget)] == Str(ScheduleLink)
              && Some(EventArgument) in d && d[Some(EventArgument)] == Str("")
    ensures |n.requests| == 3 ==>
              var d := n.requests[2].data.value;
              Some(NumberOfApplicants) in d && d[Some(NumberOfApplicants)] == Int(1)
              && Some(VisaCategory) in d && d[Some(VisaCategory)] == Int(TouristVisa)
    // the first POST goes to the welcome form's action with its fields and the postback keys
    ensures |n.requests| >= 2 ==>
              && site(WelcomeRequest).Loaded? && site(WelcomeRequest).page.form.Some?
              && var f1 := site(WelcomeRequest).page.form.value;
                 n.requests[1] == Request(AppointmentType, Post, Joined(f1.action),
                                          Some(WithPostback(ExtractFields(f1.inputs))))
    // the second POST goes to the next form's action with its fields and the application keys
    ensures |n.requests| == 3 ==>
              && site(n.requests[1]).Loaded? && site(n.requests[1]).page.form.Some?
              && var f2 := site(n.requests[1]).page.form.value;
                 n.requests[2] == Request(Application, Post, Joined(f2.action),
                                          Some(WithApplication(ExtractFields(f2.inputs))))
    // the result is read from the labels of the last page
    ensures |n.requests| == 3 && site(n.requests[2]).Loaded? ==>
              n.result == Response(site(n.requests[2]).page.message, site(n.requests[2]).page.details)
    // a connection error can only come from the transport
    ensures n.result == Raise(ConnectionError) ==> site(n.requests[|n.requests| - 1]) == Failed(ConnectionError)
  {
    match site(WelcomeRequest)
    case Failed(e) => Navigation([WelcomeRequest], Raise(e))
    case Loaded(welcome) =>
      match welcome.form
      case None => Navigation([WelcomeRequest], Raise(Failure))
      case Some(f1) =>
        var types := Request(AppointmentType, Post, Joined(f1.action),
                             Some(WithPostback(ExtractFields(f1.inputs))));
        match site(types)
        case Failed(e) => Navigation([WelcomeRequest, types], Raise(e))
        case Loaded(typesPage) =>
          match typesPage.form
          case None => Navigation([WelcomeRequest, types], Raise(Failure))
          case Some(f2) =>
            var application := Request(Application, Post, Joined(f2.action),
                                       Some(WithApplication(ExtractFields(f2.inputs))));
            match site(application)
            case Failed(e) => Navigation([WelcomeRequest, types, application], Raise(e))
            case Loaded(result) =>
              Navigation([WelcomeRequest, types, application], Response(result.message, result.details))
  }
}
