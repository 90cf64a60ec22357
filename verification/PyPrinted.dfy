/** The text that the Python codec prints and which parsed parameters make up a challenge for it, spelled out. */
module PyPrinted {
  import opened Common
  import opened HeaderText
  import opened Texts
  import opened GoHeaders
  import opened GoPrinted
  import opened PyHeaders
  import opened PySplitter

  predicate HasLineBreak(s: string) {
    exists i :: 0 <= i < |s| && (s[i] == '\r' || s[i] == '\n')
  }

  lemma {:induction false} OneLineIff(s: string)
    ensures OneLine(s) <==> !HasLineBreak(s)
  {
  }

  predicate SomeBreak(fields: seq<Named>) {
    exists i :: 0 <= i < |fields| && HasLineBreak(fields[i].value)
  }

  /** Printing refuses exactly the challenges with a line break in a shown field, and prints the others as Go does. */
  lemma {:induction false} FormatStrictIs(c: Challenge)
    ensures FormatStrict(c) == if SomeBreak(FieldsOf(c)) then None else Some("Payment " + Shown(FieldsOf(c)))
  {
    var fields := FieldsOf(c);
    FormatIs(c);
    if FieldsOneLine(c) {
      assert forall i :: 0 <= i < |fields| ==> OneLine(fields[i].value);
    } else {
      BrokenField(c);
    }
  }

  lemma {:induction false} BrokenField(c: Challenge)
    requires !FieldsOneLine(c)
    ensures SomeBreak(FieldsOf(c))
  {
    var fields, more := FieldsOf(c), IfAny("digest", c.digest);
    var required := [Named("id", c.id), Named("realm", c.realm), Named("method", c.method_), Named("intent", c.intent), Named("request", c.request)];
    assert fields[..5] == required;
    if OneLine(c.id) && OneLine(c.realm) && OneLine(c.method_) && OneLine(c.intent) && OneLine(c.request) {
      var at := 5 + |IfAny("expires", c.expires)|;
      assert c.expires != "" ==> fields[5] == Named("expires", c.expires);
      assert c.digest != "" ==> fields[at] == Named("digest", c.digest);
      assert c.opaqueData.Some? ==> fields[at + |more|] == Named("opaque", c.opaqueData.value);
      assert !OneLine(c.expires) ==> c.expires != "";
      assert !OneLine(c.digest) ==> c.digest != "";
    } else {
      assert fields[0] == required[0] && fields[1] == required[1] && fields[2] == required[2];
      assert fields[3] == required[3] && fields[4] == required[4];
    }
  }

  /** What parsed parameters stand for; the realm, the intent and the request may be empty here, but not missing. */
  lemma {:induction false} InterpretPyIs(m: map<string, string>, lib: PyLibrary)
    ensures InterpretPy(m, lib) ==
            if Field(m, "id") == "" || "realm" !in m || "method" !in m then Err(MissingField)
            else if !IsLowerCaseName(m["method"]) then Err(BadMethod)
            else if "intent" !in m || "request" !in m then Err(MissingField)
            else if !lib.validRequest(m["request"]) then Err(BadRequest)
            else
              Ok(Challenge(
                   m["id"], m["realm"], m["method"], m["intent"], m["request"],
                   Field(m, "expires"), Field(m, "description"), Field(m, "digest"),
                   if "opaque" in m then Some(m["opaque"]) else None))
  {
    if "method" in m {
      MethodNameIs(m["method"]);
    }
  }

  /** The splitter takes every text that begins with the scheme name in any case, whatever follows the name. */
  lemma {:induction false} SelectedNames(s: string)
    ensures StartsWithPayment(s) <==> |s| >= 7 && IsPaymentName(s[..7])
  {
    if |s| >= 7 {
      PaymentNames(s[..7]);
    }
  }
}
