/** The JSON-patch document that `create` sends to Azure DevOps: an ordered
    list of `{op, path, value}` entries, five fixed ones and up to three more
    appended one by one. */
module PatchDocument {
  import opened Wrappers

  /** The value of an entry: a string, JavaScript `undefined`, or a relation
      `{rel, url}` with an optional `attributes.comment`. */
  datatype Value =
    | Text(text: string)
    | Undefined
    | Relation(rel: string, url: string, comment: Option<string>)

  datatype PatchOp = PatchOp(op: string, path: string, value: Value)

  const TitlePath: string := "/fields/System.Title"
  const DescriptionPath: string := "/fields/System.Description"
  const ReproStepsPath: string := "/fields/Microsoft.VSTS.TCM.ReproSteps"
  const TagsPath: string := "/fields/System.Tags"
  const RelationsPath: string := "/relations/-"
  const AreaPathPath: string := "/fields/System.AreaPath"
  const ProductPath: string := "/fields/OSG.Product"
  const HyperlinkRel: string := "Hyperlink"
  const ParentRel: string := "System.LinkTypes.Hierarchy-Reverse"
  const AzureDevOpsHost: string := "https://dev.azure.com/"

  function Add(path: string, value: Value): PatchOp {
    PatchOp("add", path, value)
  }

  /** A possibly undefined string as an entry value. */
  function TextOrUndefined(v: Option<string>): Value {
    if v.Some? then Text(v.value) else Undefined
  }

  /** The web address of the parent work item: the organization's
      dev.azure.com address, then `/_workitems/edit/` and the parent id. */
  function ParentUrl(organization: string, parent: string): (u: string)
    ensures AzureDevOpsHost + organization <= u
    ensures u[|AzureDevOpsHost + organization|..] == "/_workitems/edit/" + parent
  {
    var url := AzureDevOpsHost + organization;
    url + "/_workitems/edit/" + parent
  }

  function IndexOfArea(parent: string): nat {
    if parent != "" then 6 else 5
  }

  /** The document, as a value: the five fixed entries, the parent relation
      when `parent_work_item` is set, the area path, and the product field
      last when `ado_product` is set. */
  function Document(title: string, description: string, tags: Option<string>, htmlUrl: string,
                    organization: string, parent: string, areaPath: string, product: string): (doc: seq<PatchOp>)
    ensures |doc| == 6 + (if parent != "" then 1 else 0) + (if product != "" then 1 else 0)
    ensures forall k :: 0 <= k < |doc| ==> doc[k].op == "add"
    ensures doc[0] == Add(TitlePath, Text(title))
    ensures doc[1] == Add(DescriptionPath, Text(description))
    ensures doc[2] == Add(ReproStepsPath, Text(description))
    ensures doc[3] == Add(TagsPath, TextOrUndefined(tags))
    ensures doc[4] == Add(RelationsPath, Relation(HyperlinkRel, htmlUrl, None))
    ensures parent != "" ==> doc[5] == Add(RelationsPath, Relation(ParentRel, ParentUrl(organization, parent), Some("")))
    ensures doc[IndexOfArea(parent)] == Add(AreaPathPath, Text(areaPath))
    ensures product != "" ==> doc[|doc| - 1] == Add(ProductPath, Text(product))
    ensures forall k :: 0 <= k < |doc| ==> (doc[k].value.Relation? && doc[k].value.rel == ParentRel <==> parent != "" && k == 5)
    ensures forall k :: 0 <= k < |doc| ==> (doc[k].path == ProductPath <==> product != "" && k == |doc| - 1)
  {
    var fixed := [
      Add(TitlePath, Text(title)),
      Add(DescriptionPath, Text(description)),
      Add(ReproStepsPath, Text(description)),
      Add(TagsPath, TextOrUndefined(tags)),
      Add(RelationsPath, Relation(HyperlinkRel, htmlUrl, None))
    ];
    var withParent := if parent != "" then [Add(RelationsPath, Relation(ParentRel, ParentUrl(organization, parent), Some("")))] else [];
    var withProduct := if product != "" then [Add(ProductPath, Text(product))] else [];
    fixed + withParent + [Add(AreaPathPath, Text(areaPath))] + withProduct
  }

  /** The builder as `create` runs it: the array literal of five entries, then
      a push for the parent relation, one for the area path and one for the
      product field. */
  method BuildDocument(title: string, description: string, tags: Option<string>, htmlUrl: string,
                       organization: string, parent: string, areaPath: string, product: string)
    returns (doc: seq<PatchOp>)
    ensures doc == Document(title, description, tags, htmlUrl, organization, parent, areaPath, product)
  {
    doc := [
      Add(TitlePath, Text(title)),
      Add(DescriptionPath, Text(description)),
      Add(ReproStepsPath, Text(description)),
      Add(TagsPath, TextOrUndefined(tags)),
      Add(RelationsPath, Relation(HyperlinkRel, htmlUrl, None))
    ];
    if parent != "" {
      var parentUrl := AzureDevOpsHost + organization;
      parentUrl := parentUrl + "/_workitems/edit/" + parent;
      doc := doc + [Add(RelationsPath, Relation(ParentRel, parentUrl, Some("")))];
    }
    doc := doc + [Add(AreaPathPath, Text(areaPath))];
    if product != "" {
      doc := doc + [Add(ProductPath, Text(product))];
    }
  }
}
