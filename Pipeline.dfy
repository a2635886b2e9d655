/** `main`: the label gate, the check for an existing mirror, the creation of
    the work item and the write-back of its id into the issue or pull request
    body. The configuration inputs are one record passed in; the work item id
    that Azure DevOps assigns is a parameter. */
module Pipeline {
  import opened Wrappers
  import opened Digits
  import opened Marker
  import opened Gate
  import opened Title
  import opened ItemFields
  import opened PatchDocument

  /** The action's inputs; an input that is not set reads as the empty string. */
  datatype Config = Config(
    requiredLabel: string,
    adoOrganization: string,
    adoDontCheckIfExist: string,
    adoProject: string,
    adoWorkItemType: string,
    adoTags: string,
    adoAreaPath: string,
    adoProduct: string,
    parentWorkItem: string)

  /** The issue or pull request of the event payload (`payload.issue ||
      payload.pull_request`); `main` changes only its body. */
  class Record {
    const kind: Kind
    const number: nat
    const title: string
    const labels: seq<Label>
    const htmlUrl: string
    var body: Option<string>

    constructor (kind: Kind, number: nat, title: string, labels: seq<Label>, htmlUrl: string, body: Option<string>)
      ensures this.kind == kind && this.number == number && this.title == title
      ensures this.labels == labels && this.htmlUrl == htmlUrl && this.body == body
    {
      this.kind := kind;
      this.number := number;
      this.title := title;
      this.labels := labels;
      this.htmlUrl := htmlUrl;
      this.body := body;
    }
  }

  /** What `main` decides before any remote call. */
  datatype Decision = Skip | Existing(id: string) | Create

  /** JavaScript truthiness of a value that may be null: present and non-empty. */
  predicate Truthy(v: Option<string>) {
    v.Some? && v.value != ""
  }

  /** The decision of `main`: skip at the label gate; otherwise, unless
      `ado_dont_check_if_exist` is set, stop when `find` yields a marker;
      otherwise create. */
  function Decide(cfg: Config, labels: seq<Label>, body: Option<string>): (d: Decision)
    ensures d == Skip <==> Skips(cfg.requiredLabel, labels)
    ensures d.Existing? <==> !Skips(cfg.requiredLabel, labels) && cfg.adoDontCheckIfExist == "" && HasMarker(BodyOrEmpty(body))
    ensures d.Existing? ==> Some(d.id) == Find(body)
    ensures d == Create <==> !Skips(cfg.requiredLabel, labels) && (cfg.adoDontCheckIfExist != "" || !HasMarker(BodyOrEmpty(body)))
  {
    if Skips(cfg.requiredLabel, labels) then Skip
    else if cfg.adoDontCheckIfExist == "" then
      var existing := Find(body);
      if !Truthy(existing) then Create else Existing(existing.value)
    else Create
  }

  /** What one run ends with. `Created` carries the id Azure DevOps assigned,
      the work-item type and the patch document sent with the request. */
  datatype Outcome =
    | Skipped
    | FoundExisting(existingId: string)
    | Created(id: nat, itemType: string, document: seq<PatchOp>)

  /** The patch document `create` builds for this record and configuration. */
  function DocumentFor(cfg: Config, record: Record, fullName: string, description: string): seq<PatchOp> {
    Document(FormatTitle(record.kind, record.number, record.title), description,
             Tags(cfg.adoTags, fullName), record.htmlUrl,
             cfg.adoOrganization, cfg.parentWorkItem, cfg.adoAreaPath, cfg.adoProduct)
  }

  /** One run of `main` on a record whose creation call succeeds with
      `createdId`. `fullName` is the repository's full name and `description`
      the description `formatDescription` produced. */
  method Run(cfg: Config, record: Record, fullName: string, description: string, createdId: nat)
    returns (outcome: Outcome)
    modifies record
    ensures old(Decide(cfg, record.labels, record.body)) == Skip ==> outcome == Skipped
    ensures old(Decide(cfg, record.labels, record.body)).Existing? ==>
      outcome == FoundExisting(old(Decide(cfg, record.labels, record.body)).id)
    ensures old(Decide(cfg, record.labels, record.body)) == Create ==>
      outcome == Created(createdId, ItemType(cfg.adoWorkItemType), DocumentFor(cfg, record, fullName, description))
    ensures record.body == if outcome.Created? then Some(WithMarker(old(record.body), createdId)) else old(record.body)
  {
    if Skips(cfg.requiredLabel, record.labels) {
      return Skipped;
    }
    if cfg.adoDontCheckIfExist == "" {
      var existingId := Find(record.body);
      if Truthy(existingId) {
        return FoundExisting(existingId.value);
      }
    }
    var tags := Tags(cfg.adoTags, fullName);
    var itemType := ItemType(cfg.adoWorkItemType);
    var document := BuildDocument(FormatTitle(record.kind, record.number, record.title), description, tags,
                                  record.htmlUrl, cfg.adoOrganization, cfg.parentWorkItem,
                                  cfg.adoAreaPath, cfg.adoProduct);
    record.body := Some(WithMarker(record.body, createdId));
    outcome := Created(createdId, itemType, document);
  }

  /** The idempotence the marker gives: after a run that created a work item
      with the existence check on, the next run on the new body finds the
      marker it wrote and creates nothing. */
  lemma {:induction false} SecondRunFindsMirror(cfg: Config, labels: seq<Label>, body: Option<string>, id: nat)
    requires cfg.adoDontCheckIfExist == ""
    requires Decide(cfg, labels, body) == Create
    ensures Decide(cfg, labels, Some(WithMarker(body, id))) == Existing(NatToDecimal(id))
  {
    NewMarkerFound(body, id);
  }

  /** Whatever the old body held, a body that went through the write-back
      never leads to a second creation while the existence check is on. */
  lemma {:induction false} WrittenBackNeverCreates(cfg: Config, labels: seq<Label>, body: Option<string>, id: nat)
    requires cfg.adoDontCheckIfExist == ""
    ensures Decide(cfg, labels, Some(WithMarker(body, id))) != Create
  {
    if Find(body).None? {
      NewMarkerFound(body, id);
    } else {
      OldMarkerKept(body, id);
    }
  }
}
