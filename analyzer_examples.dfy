/**
 * The look-back windows of the rule engine on concrete lines.
 */
module AnalyzerExamples {
  import opened Text
  import opened CodeAnalyzer

  /** A window looks for a line that is exactly the token: a loop header
      such as `for (int i = 0; i < n; i++) {` does not open a window for the
      lines after it, while a line that is just `for` does. */
  lemma WindowExample()
    ensures !InWindow(["for (int i = 0; i < n; i++) {", "d = sqrt(x);"], 1, 5, "for")
    ensures InWindow(["for", "d = sqrt(x);"], 1, 5, "for")
  {
    var header := ["for (int i = 0; i < n; i++) {", "d = sqrt(x);"];
    assert header[0..1] == ["for (int i = 0; i < n; i++) {"];
    var bare := ["for", "d = sqrt(x);"];
    assert bare[0..1] == ["for"];
  }

  /** The three window rules are not line-local: the same line is decided
      differently once a line is put before it. `d = sqrt(x);` is reported
      below a line `for` and not on its own, `s += "a";` likewise below
      `update`, and `p->x();` is reported on its own but not below `if`. */
  lemma WindowRulesLookBack()
    ensures Fires(SqrtInLoop, ["for", "d = sqrt(x);"], 1) && !Fires(SqrtInLoop, ["d = sqrt(x);"], 0)
    ensures Fires(StringInHotPath, ["update", "s += \"a\";"], 1) && !Fires(StringInHotPath, ["s += \"a\";"], 0)
    ensures !Fires(NullDereference, ["if", "p->x();"], 1) && Fires(NullDereference, ["p->x();"], 0)
  {
    var sqrtLine := "d = sqrt(x);";
    assert OccursAt(sqrtLine, "sqrt", 4) by { assert sqrtLine[4..8] == "sqrt"; }
    assert ["for", sqrtLine][0..1] == ["for"];
    var stringLine := "s += \"a\";";
    assert OccursAt(stringLine, "+=", 2) by { assert stringLine[2..4] == "+="; }
    assert OccursAt(stringLine, "\"", 5) by { assert stringLine[5..6] == "\""; }
    assert ["update", stringLine][0..1] == ["update"];
    var arrowLine := "p->x();";
    assert OccursAt(arrowLine, "->", 1) by { assert arrowLine[1..3] == "->"; }
    assert ["if", arrowLine][0..1] == ["if"];
  }
}
