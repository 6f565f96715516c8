/** The create-alert dialog's submit: the alert it builds from the form, the
    two callbacks it makes and the form reset.  The clock is the pair of
    parameters `nowMs` (`Date.now()`) and `nowIso` (`toISOString()`). */
module CreateAlertModal {
  import opened Wrappers
  import opened Text
  import opened AsteroidData
  import opened AlertsPage
  import Grouping

  datatype Form = Form(asteroidId: string, kind: string, threshold: string)

  const InitialForm := Form("", "approach", "")

  /** `mockAsteroids.find(a => a.id === asteroidId)`: the first match. */
  function FindById(catalogue: seq<Asteroid>, id: string): (r: Option<Asteroid>)
    ensures r.None? <==> forall a :: a in catalogue ==> a.id != id
    ensures r.Some? ==> exists i :: 0 <= i < |catalogue| && catalogue[i] == r.value && r.value.id == id
                          && forall j :: 0 <= j < i ==> catalogue[j].id != id
  {
    if |catalogue| == 0 then None
    else if catalogue[0].id == id then Some(catalogue[0])
    else
      var r := FindById(catalogue[1..], id);
      assert catalogue == [catalogue[0]] + catalogue[1..];
      if r.Some? then
        ghost var i :| 0 <= i < |catalogue[1..]| && catalogue[1..][i] == r.value && r.value.id == id
                       && forall j :: 0 <= j < i ==> catalogue[1..][j].id != id;
        assert catalogue[i + 1] == r.value;
        r
      else r
  }

  function TitleFor(kind: string): (t: string)
    ensures t == "High Risk Alert" <==> kind == "hazardous"
    ensures t == "Threshold Breached" <==> kind == "threshold"
    ensures t == "Close Approach Alert" <==> kind != "hazardous" && kind != "threshold"
  {
    if kind == "hazardous" then "High Risk Alert"
    else if kind == "threshold" then "Threshold Breached"
    else "Close Approach Alert"
  }

  /** The description: who triggered which alert, then the threshold when one
      was typed. */
  function Description(name: string, kind: string, threshold: string): (d: string)
    ensures StartsWith(d, "Asteroid " + name + " has triggered a " + kind + " alert.")
    ensures threshold != "" ==> EndsWith(d, " Threshold: " + threshold)
    ensures threshold == "" ==> EndsWith(d, " alert.")
    ensures |d| == |"Asteroid " + name + " has triggered a " + kind + " alert."|
                   + (if threshold == "" then 0 else |" Threshold: " + threshold|)
  {
    var pre := "Asteroid " + name + " has triggered a " + kind;
    var head := pre + " alert.";
    var tail := if threshold != "" then " Threshold: " + threshold else "";
    var d := head + tail;
    assert d[..|head|] == head;
    assert d[|head|..] == tail;
    assert head[|pre|..] == " alert.";
    d
  }

  datatype Callback = OnCreate(alert: Alert) | OnClose

  /** `handleSubmit`: `onCreate(newAlert)`, then `onClose()`, then the reset. */
  function Submit(form: Form, catalogue: seq<Asteroid>, nowMs: nat, nowIso: string)
    : (out: (seq<Callback>, Form))
    ensures |out.0| == 2 && out.0[0].OnCreate? && out.0[1] == OnClose
    ensures out.1 == InitialForm
    ensures var a := out.0[0].alert;
            var name := if FindById(catalogue, form.asteroidId).Some?
                        then FindById(catalogue, form.asteroidId).value.name else "Unknown";
            && a.id == Grouping.Digits(nowMs)
            && a.kind == form.kind && a.title == TitleFor(form.kind)
            && a.description == Description(name, form.kind, form.threshold)
            && a.timestamp == nowIso && !a.read && a.asteroidName == Some(name)
  {
    var found := FindById(catalogue, form.asteroidId);
    var name := if found.Some? then found.value.name else "Unknown";
    var a := Alert(Grouping.Digits(nowMs), form.kind, TitleFor(form.kind),
                   Description(name, form.kind, form.threshold), nowIso, false, Some(name));
    ([OnCreate(a), OnClose], InitialForm)
  }

  /** The threshold field is only shown for threshold alerts, but its value
      survives a change of type and still ends the description. */
  lemma ThresholdSurvivesTypeChange(catalogue: seq<Asteroid>, nowMs: nat, nowIso: string, id: string, t: string)
    requires t != ""
    ensures EndsWith(Submit(Form(id, "approach", t), catalogue, nowMs, nowIso).0[0].alert.description,
                     " Threshold: " + t)
  {
  }
}
