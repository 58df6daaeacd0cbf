/**
 * The envelope definition that `DocuSignService.createEnvelopeWithSignatureFields`
 * assembles before it submits it: one PDF document, one signer, and for every
 * requested position a required sign-here tab and an optional initial tab
 * 150 units to its right. Authentication and the submission itself are
 * calls into the DocuSign SDK and are parameters of the request handler.
 */
module DocuSignService {
  import opened Wrappers
  import opened Js
  import Decimal
  import Text

  const EmailSubject := "Please approve the mockup sheet"
  const SentStatus := "sent"
  const DocumentName := "Mockup Sheet"
  const DocumentExtension := "pdf"
  const DocumentId := "1"
  const RecipientId := "1"
  const RoutingOrder := "1"
  const InitialOffsetX := 150
  const SignHerePrefix := "Logo_Approval_"
  const InitialPrefix := "Initial_"

  /** A position as the handler passes it: the JavaScript values of `page`, `x` and `y`. */
  datatype Position = Position(page: Value, x: Value, y: Value)

  /** The document; its bytes stand for the base64 text the SDK sends. */
  datatype Document = Document(documentBytes: seq<bv8>, name: string, fileExtension: string, documentId: string)

  /** A sign-here or initial-here tab; every coordinate is the string the SDK sends. */
  datatype Tab = Tab(documentId: string, pageNumber: string, xPosition: string, yPosition: string,
                     tabLabel: string, optional: string)

  datatype Tabs = Tabs(signHereTabs: seq<Tab>, initialHereTabs: seq<Tab>)

  datatype Signer = Signer(email: Value, name: Value, recipientId: string, routingOrder: string, tabs: Tabs)

  datatype EnvelopeDefinition = EnvelopeDefinition(emailSubject: string, status: string,
                                                   documents: seq<Document>, signers: seq<Signer>)

  /** `pos.page.toString()` and its siblings throw on null or undefined. */
  predicate Renderable(p: Position)
  {
    !Nullish(p.page) && !Nullish(p.x) && !Nullish(p.y)
  }

  predicate AllRenderable(positions: seq<Position>)
  {
    forall i :: 0 <= i < |positions| ==> Renderable(positions[i])
  }

  function SignHereLabel(index: nat): string
  {
    SignHerePrefix + Decimal.IntToString(index + 1)
  }

  function InitialLabel(index: nat): string
  {
    InitialPrefix + Decimal.IntToString(index + 1)
  }

  function SignHereTab(index: nat, p: Position): Tab
    requires Renderable(p)
  {
    Tab(DocumentId, ToString(p.page), ToString(p.x), ToString(p.y), SignHereLabel(index), "false")
  }

  function InitialTab(index: nat, p: Position): Tab
    requires Renderable(p)
  {
    Tab(DocumentId, ToString(p.page), ToString(AddNumber(p.x, InitialOffsetX)), ToString(p.y),
        InitialLabel(index), "true")
  }

  /** The sign-here tabs are the positions, one each, in order, labelled by ordinal. */
  ghost predicate SignHereTabsFor(tabs: seq<Tab>, positions: seq<Position>)
  {
    |tabs| == |positions| &&
    forall i :: 0 <= i < |positions| ==>
      tabs[i].documentId == DocumentId &&
      tabs[i].pageNumber == ToString(positions[i].page) &&
      tabs[i].xPosition == ToString(positions[i].x) &&
      tabs[i].yPosition == ToString(positions[i].y) &&
      tabs[i].tabLabel == SignHerePrefix + Decimal.IntToString(i + 1) &&
      tabs[i].optional == "false"
  }

  /** The initial tabs are the positions shifted by +150 on x, optional, labelled by ordinal. */
  ghost predicate InitialTabsFor(tabs: seq<Tab>, positions: seq<Position>)
    requires AllRenderable(positions)
  {
    |tabs| == |positions| &&
    forall i :: 0 <= i < |positions| ==>
      tabs[i].documentId == DocumentId &&
      tabs[i].pageNumber == ToString(positions[i].page) &&
      tabs[i].xPosition == ToString(AddNumber(positions[i].x, 150)) &&
      tabs[i].yPosition == ToString(positions[i].y) &&
      tabs[i].tabLabel == InitialPrefix + Decimal.IntToString(i + 1) &&
      tabs[i].optional == "true"
  }

  /** The fixed parts of the envelope: subject, status, the one document and the one signer. */
  ghost predicate FixedParts(env: EnvelopeDefinition, pdfBytes: seq<bv8>, email: Value, name: Value)
  {
    env.emailSubject == "Please approve the mockup sheet" &&
    env.status == "sent" &&
    env.documents == [Document(pdfBytes, "Mockup Sheet", "pdf", "1")] &&
    |env.signers| == 1 &&
    env.signers[0].email == email &&
    env.signers[0].name == name &&
    env.signers[0].recipientId == "1" &&
    env.signers[0].routingOrder == "1"
  }

  /**
   * Lines 56-103 of `createEnvelopeWithSignatureFields`: the envelope is built
   * unless rendering some coordinate throws.
   */
  function BuildEnvelope(pdfBytes: seq<bv8>, recipientEmail: Value, recipientName: Value,
                         positions: seq<Position>): (r: Result<EnvelopeDefinition, Exception>)
    ensures r.Success? <==> AllRenderable(positions)
    ensures r.Failure? ==> r.error == TypeError
    ensures r.Success? ==> FixedParts(r.value, pdfBytes, recipientEmail, recipientName)
    ensures r.Success? ==> SignHereTabsFor(r.value.signers[0].tabs.signHereTabs, positions)
    ensures r.Success? ==> InitialTabsFor(r.value.signers[0].tabs.initialHereTabs, positions)
  {
    if !AllRenderable(positions) then Failure(TypeError)
    else
      var signHere := seq(|positions|, i requires 0 <= i < |positions| => SignHereTab(i, positions[i]));
      var initials := seq(|positions|, i requires 0 <= i < |positions| => InitialTab(i, positions[i]));
      var signer := Signer(recipientEmail, recipientName, RecipientId, RoutingOrder, Tabs(signHere, initials));
      Success(EnvelopeDefinition(EmailSubject, SentStatus,
                                 [Document(pdfBytes, DocumentName, DocumentExtension, DocumentId)], [signer]))
  }

  /** Every tab label of an envelope, sign-here tabs first. */
  function TabLabels(tabs: Tabs): (labels: seq<string>)
    ensures |labels| == |tabs.signHereTabs| + |tabs.initialHereTabs|
  {
    seq(|tabs.signHereTabs|, i requires 0 <= i < |tabs.signHereTabs| => tabs.signHereTabs[i].tabLabel) +
    seq(|tabs.initialHereTabs|, i requires 0 <= i < |tabs.initialHereTabs| => tabs.initialHereTabs[i].tabLabel)
  }

  lemma PrefixCancels(p: string, a: string, b: string)
    requires p + a == p + b
    ensures a == b
  {
    assert a == (p + a)[|p|..];
    assert b == (p + b)[|p|..];
  }

  lemma OrdinalLabelsDistinct(p: string, i: nat, j: nat)
    requires i != j
    ensures p + Decimal.IntToString(i + 1) != p + Decimal.IntToString(j + 1)
  {
    if p + Decimal.IntToString(i + 1) == p + Decimal.IntToString(j + 1) {
      PrefixCancels(p, Decimal.IntToString(i + 1), Decimal.IntToString(j + 1));
      Decimal.IntToStringInjective(i + 1, j + 1);
    }
  }

  /** Labels laid out as n sign-here ordinals then n initial ordinals are pairwise distinct. */
  lemma OrdinalLayoutDistinct(labels: seq<string>, n: nat)
    requires |labels| == 2 * n
    requires forall i :: 0 <= i < n ==> labels[i] == SignHereLabel(i)
    requires forall i :: n <= i < 2 * n ==> labels[i] == InitialLabel(i - n)
    ensures forall i, j :: 0 <= i < j < |labels| ==> labels[i] != labels[j]
  {
    forall i, j | 0 <= i < j < |labels|
      ensures labels[i] != labels[j]
    {
      if j < n {
        OrdinalLabelsDistinct(SignHerePrefix, i, j);
      } else if i >= n {
        OrdinalLabelsDistinct(InitialPrefix, i - n, j - n);
      } else {
        assert labels[i][0] == 'L' && labels[j][0] == 'I';
      }
    }
  }

  /** No two tabs of one envelope share a label, within a kind or across the two kinds. */
  lemma TabLabelsDistinct(pdfBytes: seq<bv8>, email: Value, name: Value, positions: seq<Position>)
    requires BuildEnvelope(pdfBytes, email, name, positions).Success?
    ensures var labels := TabLabels(BuildEnvelope(pdfBytes, email, name, positions).value.signers[0].tabs);
            forall i, j :: 0 <= i < j < |labels| ==> labels[i] != labels[j]
  {
    var tabs := BuildEnvelope(pdfBytes, email, name, positions).value.signers[0].tabs;
    var labels := TabLabels(tabs);
    var n := |positions|;
    assert SignHereTabsFor(tabs.signHereTabs, positions);
    assert InitialTabsFor(tabs.initialHereTabs, positions);
    forall i | 0 <= i < n
      ensures labels[i] == SignHereLabel(i)
    {
      assert labels[i] == tabs.signHereTabs[i].tabLabel;
    }
    forall i | n <= i < 2 * n
      ensures labels[i] == InitialLabel(i - n)
    {
      assert labels[i] == tabs.initialHereTabs[i - n].tabLabel;
    }
    OrdinalLayoutDistinct(labels, n);
  }

  /**
   * For numeric coordinates the tabs carry the numbers themselves: reading the
   * strings back gives page, x and y, and the initial tab's x is x + 150.
   */
  lemma NumericTabCoordinates(pdfBytes: seq<bv8>, email: Value, name: Value, positions: seq<Position>, i: nat)
    requires i < |positions|
    requires positions[i].page.Num? && positions[i].x.Num? && positions[i].y.Num?
    requires BuildEnvelope(pdfBytes, email, name, positions).Success?
    ensures var tabs := BuildEnvelope(pdfBytes, email, name, positions).value.signers[0].tabs;
            var p := positions[i];
            && Decimal.ParseInt(tabs.signHereTabs[i].pageNumber) == Some(p.page.n)
            && Decimal.ParseInt(tabs.signHereTabs[i].xPosition) == Some(p.x.n)
            && Decimal.ParseInt(tabs.signHereTabs[i].yPosition) == Some(p.y.n)
            && Decimal.ParseInt(tabs.initialHereTabs[i].pageNumber) == Some(p.page.n)
            && Decimal.ParseInt(tabs.initialHereTabs[i].xPosition) == Some(p.x.n + 150)
            && Decimal.ParseInt(tabs.initialHereTabs[i].yPosition) == Some(p.y.n)
  {
    var p := positions[i];
    Decimal.IntToStringRoundTrip(p.page.n);
    Decimal.IntToStringRoundTrip(p.x.n);
    Decimal.IntToStringRoundTrip(p.y.n);
    Decimal.IntToStringRoundTrip(p.x.n + 150);
  }

  /** A coordinate given as a string is concatenated with "150", not added to. */
  lemma StringXIsConcatenated(pdfBytes: seq<bv8>, email: Value, name: Value)
    ensures var r := BuildEnvelope(pdfBytes, email, name, [Position(Num(1), Str("50"), Num(60))]);
            r.Success? && r.value.signers[0].tabs.initialHereTabs[0].xPosition == "50150"
  {
    var r := BuildEnvelope(pdfBytes, email, name, [Position(Num(1), Str("50"), Num(60))]);
    assert Decimal.IntToString(150) == "150" by {
      assert Decimal.NatToString(15) == "15";
    }
  }

  /** No positions, no tabs. */
  lemma NoPositionsNoTabs(pdfBytes: seq<bv8>, email: Value, name: Value)
    ensures var r := BuildEnvelope(pdfBytes, email, name, []);
            r.Success? && r.value.signers[0].tabs == Tabs([], [])
  {
  }
}
