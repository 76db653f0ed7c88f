/** The booking site's form `frmWeb`: its inputs become a name-to-value map
    (the cancel and back buttons left out), which each step of the flow then
    augments with fixed protocol keys. */
module Form {
  import opened Schema

  /** An `<input>` element: its `name` and `value` attributes, each possibly absent. */
  datatype Input = Input(name: Option<string>, value: Option<string>)

  /** The form element: its `action` attribute and its inputs in document order. */
  datatype Form = Form(action: Option<string>, inputs: seq<Input>)

  /** A value of the posted dictionary: a string, an integer, or `None`. */
  datatype Value = Str(s: string) | Int(n: int) | Null

  /** The posted dictionary, keyed by input name (`None` when an input has no name). */
  type Fields = map<Option<string>, Value>

  const CancelButton: string := "ctl00$plhMain$btnCancel"
  const BackButton: string := "ctl00$plhMain$btnBack"
  const EventTarget: string := "__EVENTTARGET"
  const EventArgument: string := "__EVENTARGUMENT"
  /** The link control that opens the scheduling page. */
  const ScheduleLink: string := "ctl00$plhMain$lnkSchApp"
  const NumberOfApplicants: string := "ctl00$plhMain$tbxNumOfApplicants"
  const VisaCategory: string := "ctl00$plhMain$cboVisaCategory"
  /** Touristic Schengen visa. */
  const TouristVisa: int := 898

  /** Names never forwarded: submitting them would abort the flow. */
  predicate Excluded(name: Option<string>) {
    name == Some(CancelButton) || name == Some(BackButton)
  }

  function ValueOf(v: Option<string>): Value {
    match v
    case None => Null
    case Some(s) => Str(s)
  }

  /** The dict comprehension over the form's inputs: later inputs overwrite
      earlier ones with the same name. */
  function ExtractFields(inputs: seq<Input>): (f: Fields)
    ensures forall k :: k in f ==> !Excluded(k)
    decreases |inputs|
  {
    if inputs == [] then map[]
    else
      var f := ExtractFields(inputs[..|inputs| - 1]);
      var last := inputs[|inputs| - 1];
      if Excluded(last.name) then f else f[last.name := ValueOf(last.value)]
  }

  /** A name is a key of the extracted fields exactly when some input carries
      it and it is not one of the two excluded buttons. */
  lemma {:induction false} ExtractFieldsKeys(inputs: seq<Input>, k: Option<string>)
    ensures k in ExtractFields(inputs)
        <==> !Excluded(k) && exists i :: 0 <= i < |inputs| && inputs[i].name == k
    decreases |inputs|
  {
    if inputs != [] {
      var init := inputs[..|inputs| - 1];
      ExtractFieldsKeys(init, k);
      if k in ExtractFields(inputs) && !(k in ExtractFields(init)) {
        assert inputs[|inputs| - 1].name == k;
      }
      if !Excluded(k) && (exists i :: 0 <= i < |inputs| && inputs[i].name == k) {
        var i :| 0 <= i < |inputs| && inputs[i].name == k;
        if i < |inputs| - 1 {
          assert init[i].name == k;
        }
      }
      if exists i :: 0 <= i < |init| && init[i].name == k {
        var i :| 0 <= i < |init| && init[i].name == k;
        assert inputs[i].name == k;
      }
    }
  }

  /** With duplicate names the last such input wins. */
  lemma {:induction false} ExtractFieldsLastWins(inputs: seq<Input>, i: nat)
    requires i < |inputs| && !Excluded(inputs[i].name)
    requires forall j :: i < j < |inputs| ==> inputs[j].name != inputs[i].name
    ensures inputs[i].name in ExtractFields(inputs)
    ensures ExtractFields(inputs)[inputs[i].name] == ValueOf(inputs[i].value)
    decreases |inputs|
  {
    if i < |inputs| - 1 {
      var init := inputs[..|inputs| - 1];
      ExtractFieldsLastWins(init, i);
    }
  }

  /** What the first step posts back: the extracted fields with the postback
      target set to the scheduling link and an empty argument. */
  function WithPostback(f: Fields): (g: Fields)
    ensures g.Keys == f.Keys + {Some(EventTarget), Some(EventArgument)}
    ensures g[Some(EventTarget)] == Str(ScheduleLink) && g[Some(EventArgument)] == Str("")
    ensures forall k :: k in f && k != Some(EventTarget) && k != Some(EventArgument) ==> g[k] == f[k]
  {
    f[Some(EventTarget) := Str(ScheduleLink)][Some(EventArgument) := Str("")]
  }

  /** What the second step posts: the extracted fields with one applicant and
      the touristic visa category. */
  function WithApplication(f: Fields): (g: Fields)
    ensures g.Keys == f.Keys + {Some(NumberOfApplicants), Some(VisaCategory)}
    ensures g[Some(NumberOfApplicants)] == Int(1) && g[Some(VisaCategory)] == Int(TouristVisa)
    ensures forall k :: k in f && k != Some(NumberOfApplicants) && k != Some(VisaCategory) ==> g[k] == f[k]
  {
    f[Some(NumberOfApplicants) := Int(1)][Some(VisaCategory) := Int(TouristVisa)]
  }
}
