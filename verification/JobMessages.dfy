/** The codec theorems for the job messages themselves, and two inputs that show where they stop. */
module JobMessages {
  import opened Wrappers
  import opened Descriptor
  import opened Json
  import opened JobCodec
  import opened JobRoundTrip
  import opened JobAcceptance
  import opened JobDocuments
  import opened JobCanonical
  import opened JobMeaning
  import opened JobFailures
  import opened JobOrder
  import opened JobSpelling
  import opened JobTable
  import opened JobTableValid

  /**
   Any job tree with defined enum numbers and finite doubles, however deep, survives the JSON codec; no other does.
   */
  lemma JobsRoundTrip(text: NumberText, job: Value)
    requires Typed(JobDescriptor(text), Nested(OracleJob), job)
    ensures var d := JobDescriptor(text);
            var printed := Print(d, Nested(OracleJob), job);
            && Valid(d)
            && ((printed.Ok? && Parse(d, Nested(OracleJob), printed.value) == Ok(job)) <==>
                (EnumsDefined(d, Nested(OracleJob), job) && AllFinite(job)))
  {
    JobDescriptorValid(text);
    RoundTrip(JobDescriptor(text), OracleJob, job);
  }

  /**
   Whatever job document the parser accepts is a tree that prints; it prints as the same document exactly when it is
   canonical, and its order is free exactly when no null shares a slot with a value.
   */
  lemma JobDocumentsExactly(text: NumberText, j: Json)
    ensures var d := JobDescriptor(text);
            && Valid(d)
            && (Parse(d, Nested(OracleJob), j).Ok? ==>
                  var job := Parse(d, Nested(OracleJob), j).value;
                  && Typed(d, Nested(OracleJob), job)
                  && Print(d, Nested(OracleJob), job).Ok?
                  && Parse(d, Nested(OracleJob), Print(d, Nested(OracleJob), job).value) == Ok(Scrub(job))
                  && (Print(d, Nested(OracleJob), job) == Ok(j) <==> Canonical(d, Nested(OracleJob), j))
                  && ((forall b :: Reordered(j, b) ==> Parse(d, Nested(OracleJob), b) == Ok(job)) <==>
                      NullsApart(d, Nested(OracleJob), j)))
  {
    var d := JobDescriptor(text);
    JobDescriptorValid(text);
    if Parse(d, Nested(OracleJob), j).Ok? {
      Normalises(d, OracleJob, j);
      CanonicalExactly(d, OracleJob, j);
      OrderMattersExactly(d, OracleJob, j);
    }
  }

  /**
   A job document gives a job exactly when it is acceptable and the job holds what it says; every oneof in it, at every
   level, then has at most one non-null member, and the job holds that one.
   */
  lemma JobDocumentsMean(text: NumberText, j: Json, job: Value)
    ensures var d := JobDescriptor(text);
            && Valid(d)
            && (Parse(d, Nested(OracleJob), j) == Ok(job) <==>
                Acceptable(d, Nested(OracleJob), j) && Holds(d, Nested(OracleJob), j, job))
            && (Parse(d, Nested(OracleJob), j).Ok? ==> OneMember(d, Nested(OracleJob), j))
  {
    var d := JobDescriptor(text);
    JobDescriptorValid(text);
    MeansExactly(d, Nested(OracleJob), j, job);
    if Parse(d, Nested(OracleJob), j).Ok? {
      OneMemberEverywhere(d, Nested(OracleJob), j);
    }
  }

  /**
   A job document is rejected with an error exactly when that is the first thing wrong with it, and a job is refused
   with a number exactly when that is the first undefined enum number in it.
   */
  lemma JobsFailExactly(text: NumberText, j: Json, job: Value, e: ParseError, n: int)
    requires Typed(JobDescriptor(text), Nested(OracleJob), job)
    ensures var d := JobDescriptor(text);
            && Valid(d)
            && (Parse(d, Nested(OracleJob), j) == Err(e) <==> Faulty(d, Nested(OracleJob), j, e))
            && (Print(d, Nested(OracleJob), job) == Err(InvalidVariant(n)) <==>
                FirstUndefined(d, Nested(OracleJob), job, n))
  {
    JobDescriptorValid(text);
    FailsExactly(JobDescriptor(text), Nested(OracleJob), j, e);
    PrintFailsExactly(JobDescriptor(text), Nested(OracleJob), job, n);
  }

  /** Two spellings of a job document have the same outcome. */
  lemma JobSpellingUnseen(text: NumberText, a: Json, b: Json)
    ensures var d := JobDescriptor(text);
            && Valid(d)
            && (Respelled(d, Nested(OracleJob), a, b) ==>
                Parse(d, Nested(OracleJob), a) == Parse(d, Nested(OracleJob), b))
  {
    var d := JobDescriptor(text);
    JobDescriptorValid(text);
    if Respelled(d, Nested(OracleJob), a, b) {
      RespellingUnseen(d, Nested(OracleJob), a, b);
    }
  }

  /** A field of a job message is named by its two keys and by nothing else. */
  lemma JobKeysResolve(text: NumberText, m: MessageName, f: nat, key: string)
    requires f < |FieldsOf(m)|
    ensures Resolve(FieldsOf(m), key) == Some(f) <==> key == FieldsOf(m)[f].camel || key == FieldsOf(m)[f].snake
  {
    MessageValid(m);
    ResolveSpelling(FieldsOf(m), f, key);
  }

  /** An `AddTask` that adds NaN prints as a document that parses to an `AddTask` that adds nothing. */
  lemma NaNIsLost(text: NumberText)
    ensures var d, v := JobDescriptor(text), Tree([Set(0, DoubleV(NotANumber))]);
            && Valid(d) && Typed(d, Nested(AddTask), v)
            && Print(d, Nested(AddTask), v).Ok?
            && Parse(d, Nested(AddTask), Print(d, Nested(AddTask), v).value) == Ok(Tree([Unset]))
  {
    var d, v := JobDescriptor(text), Tree([Set(0, DoubleV(NotANumber))]);
    JobDescriptorValid(text);
    assert SlotTyped(d, AddTask, 0, v.slots[0]);
    assert SlotEnumsDefined(d, AddTask, 0, v.slots[0]);
    RoundTrip(d, AddTask, v);
    assert ScrubSlots(v.slots) == [Unset];
  }

  /** `{"job": null, "big": "1"}` is an `AddTask`; the same two entries the other way round are not. */
  lemma NullAfterValueRejected(text: NumberText)
    ensures var d := JobDescriptor(text);
            var job, big := Entry("job", Null), Entry("big", Str("1"));
            && Valid(d)
            && Parse(d, Nested(AddTask), Obj([job, big])).Ok?
            && Parse(d, Nested(AddTask), Obj([big, job])) == Err(DuplicateField("job"))
  {
    var d := JobDescriptor(text);
    JobDescriptorValid(text);
    JobKeysResolve(text, AddTask, 2, "job");
    JobKeysResolve(text, AddTask, 3, "big");
    var job, big, blank := Entry("job", Null), Entry("big", Str("1")), Blank(1);
    var filled := blank[0 := Set(3, TextV("1"))];
    VisitPair(d, AddTask, job, big, blank);
    VisitPair(d, AddTask, big, job, blank);
    assert blank[0 := Unset] == blank;
    assert VisitEntry(d, AddTask, job, blank) == Ok(blank);
    assert VisitEntry(d, AddTask, big, blank) == Ok(filled);
    assert VisitEntry(d, AddTask, job, filled) == Err(DuplicateField("job"));
  }
}
