/** Concrete redactions worked out step by step. */
module RedactionScenarios {
  import opened Wrappers
  import opened Entities
  import opened StableSort
  import opened Redaction

  /** The worked example: a person's name in a short sentence. */
  lemma NameRedacted()
    ensures Redact("My name is John Doe.", [Entity("John Doe", "Person", None, 11, 8)])
      == "My name is [REDACTED_PERSON]."
  {
    var person := Entity("John Doe", "Person", None, 11, 8);
    assert [person][1..] == [];
    assert SortDesc([person]) == [person];
    NameReplaced();
    assert ApplyAll("My name is John Doe.", [person]) == ApplyAll("My name is [REDACTED_PERSON].", []);
  }

  lemma NameReplaced()
    ensures ReplaceSpan("My name is John Doe.", Entity("John Doe", "Person", None, 11, 8))
      == "My name is [REDACTED_PERSON]."
  {
    var person := Entity("John Doe", "Person", None, 11, 8);
    var text := "My name is John Doe.";
    PersonPlaceholder();
    SentenceSlices();
    assert ReplaceSpan(text, person) == text[..11] + Placeholder("Person") + text[19..];
  }

  lemma SentenceSlices()
    ensures |"My name is John Doe."| == 20
    ensures "My name is John Doe."[..11] == "My name is "
    ensures "My name is John Doe."[19..] == "."
    ensures "My name is " + "[REDACTED_PERSON]" + "." == "My name is [REDACTED_PERSON]."
  {
  }

  lemma PersonPlaceholder()
    ensures Placeholder("Person") == "[REDACTED_PERSON]"
  {
    PersonUpper();
    assert PlaceholderOpen + "PERSON" + PlaceholderClose == "[REDACTED_PERSON]";
  }

  lemma PersonUpper()
    ensures Upper("Person") == "PERSON"
  {
    var r := Upper("Person");
    assert |r| == 6;
    assert r[0] == 'P' && r[1] == 'E' && r[2] == 'R' && r[3] == 'S' && r[4] == 'O' && r[5] == 'N';
  }
}
