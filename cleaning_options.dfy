/** `CleaningOptions`: three independent switches, each off unless set. */
module CleaningOptionsModel {

  datatype CleaningOptions = CleaningOptions(
    trimWhitespace: bool := false,
    cleanWhitespace: bool := false,
    removeTabs: bool := false)

  /** Every option a caller does not set is off. */
  lemma DefaultsAreOff(trim: bool)
    ensures CleaningOptions() == CleaningOptions(false, false, false)
    ensures CleaningOptions(trimWhitespace := trim).cleanWhitespace == false
    ensures CleaningOptions(trimWhitespace := trim).removeTabs == false
    ensures CleaningOptions(trimWhitespace := true, removeTabs := true) == CleaningOptions(true, false, true)
  {
  }

  /** Setting one field leaves the other two as they were. */
  lemma FieldsAreIndependent(o: CleaningOptions, b: bool)
    ensures o.(trimWhitespace := b).cleanWhitespace == o.cleanWhitespace
    ensures o.(trimWhitespace := b).removeTabs == o.removeTabs
    ensures o.(cleanWhitespace := b).trimWhitespace == o.trimWhitespace
    ensures o.(cleanWhitespace := b).removeTabs == o.removeTabs
    ensures o.(removeTabs := b).trimWhitespace == o.trimWhitespace
    ensures o.(removeTabs := b).cleanWhitespace == o.cleanWhitespace
  {
  }
}
