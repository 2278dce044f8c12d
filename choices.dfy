/**
 * Django choice lists: `(code, label)` pairs. A `ChoiceField` accepts exactly the codes of
 * its list; `dict(CHOICES)[code]` gives the label of the last pair with that code.
 */
module Choices {

  type ChoiceList = seq<(string, string)>

  predicate IsChoice(choices: ChoiceList, code: string)
  {
    exists i :: 0 <= i < |choices| && choices[i].0 == code
  }

  predicate DistinctCodes(choices: ChoiceList)
  {
    forall i, j :: 0 <= i < j < |choices| ==> choices[i].0 != choices[j].0
  }

  /** `dict(choices)[code]`. */
  function Label(choices: ChoiceList, code: string): (display: string)
    requires IsChoice(choices, code)
    ensures (code, display) in choices
    ensures DistinctCodes(choices) ==> forall i :: 0 <= i < |choices| && choices[i].0 == code ==> choices[i].1 == display
  {
    var last := |choices| - 1;
    if choices[last].0 == code then choices[last].1
    else
      assert IsChoice(choices[..last], code) by {
        var i :| 0 <= i < |choices| && choices[i].0 == code;
        assert choices[..last][i] == choices[i];
      }
      var display := Label(choices[..last], code);
      assert forall i :: 0 <= i < last ==> choices[..last][i] == choices[i];
      display
  }

  /** Whether the code is one of the list's codes, as a test the model can run. */
  function Lookup(choices: ChoiceList, code: string): (r: bool)
    ensures r <==> IsChoice(choices, code)
  {
    if choices == [] then false
    else if choices[0].0 == code then true
    else
      var r := Lookup(choices[1..], code);
      assert IsChoice(choices, code) && choices[0].0 != code ==> IsChoice(choices[1..], code) by {
        if IsChoice(choices, code) && choices[0].0 != code {
          var i :| 0 <= i < |choices| && choices[i].0 == code;
          assert choices[1..][i - 1] == choices[i];
        }
      }
      assert IsChoice(choices[1..], code) ==> IsChoice(choices, code) by {
        if IsChoice(choices[1..], code) {
          var i :| 0 <= i < |choices[1..]| && choices[1..][i].0 == code;
          assert choices[i + 1] == choices[1..][i];
        }
      }
      r
  }
}
