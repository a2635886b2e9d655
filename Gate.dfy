/** The label gate at the start of `main`: when a label is configured, the
    run goes on only if the issue or pull request carries a label of exactly
    that name. */
module Gate {

  /** A GitHub label; only its name is looked at. */
  datatype Label = Label(name: string)

  /** `labels.some(label => label.name === name)`: an exact, case-sensitive match. */
  function SomeNamed(labels: seq<Label>, name: string): (r: bool)
    ensures r <==> exists k :: 0 <= k < |labels| && labels[k].name == name
    decreases |labels|
  {
    if labels == [] then false
    else labels[0].name == name || SomeNamed(labels[1..], name)
  }

  /** The run is skipped exactly when a non-empty label is configured (an empty
      input is falsy) and no label of the item has that name. */
  function Skips(configured: string, labels: seq<Label>): (r: bool)
    ensures r <==> configured != "" && forall k :: 0 <= k < |labels| ==> labels[k].name != configured
  {
    configured != "" && !SomeNamed(labels, configured)
  }
}
