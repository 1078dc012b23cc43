/**
 * Request bodies of the workspace endpoints and their validation tags. Lengths
 * are counted in characters (Unicode code points), as the validator counts runes.
 */
module WorkspaceRequest {
  import opened Wrappers
  import WorkspaceSchema

  const NameMinLength: nat := 1
  const NameMaxLength: nat := 255
  const DescriptionMaxLength: nat := 1000

  /** Body of POST /workspaces. An absent description is None. */
  datatype CreateWorkspaceRequest = CreateWorkspaceRequest(name: string, description: Option<string>)

  /** Body of PUT /workspaces/:id. Every field may be absent. */
  datatype UpdateWorkspaceRequest = UpdateWorkspaceRequest(name: Option<string>, description: Option<string>, isPublic: Option<bool>)

  /** `min=1,max=255` on a name. */
  predicate NameInBounds(name: string) {
    NameMinLength <= |name| <= NameMaxLength
  }

  /** `omitempty,max=1000` on a description pointer: an absent one is not checked. */
  predicate DescriptionInBounds(description: Option<string>) {
    description.None? || |description.value| <= DescriptionMaxLength
  }

  /** `required,min=1,max=255` on the name and `omitempty,max=1000` on the description. */
  predicate CreateValid(req: CreateWorkspaceRequest) {
    NameInBounds(req.name) && DescriptionInBounds(req.description)
  }

  /** `omitempty,min=1,max=255` on the name pointer; IsPublic carries no bounds. */
  predicate UpdateValid(req: UpdateWorkspaceRequest) {
    (req.name.None? || NameInBounds(req.name.value)) && DescriptionInBounds(req.description)
  }

  /** A create body that passes validation has a non-empty name that fits the name column. */
  lemma CreateValidFitsTable(req: CreateWorkspaceRequest)
    requires CreateValid(req)
    ensures req.name != [] && |req.name| <= WorkspaceSchema.NameMaxLength
  {
  }

  /** An update body that passes validation names a non-empty, column-sized name whenever it names one. */
  lemma UpdateValidFitsTable(req: UpdateWorkspaceRequest)
    requires UpdateValid(req)
    ensures req.name.Some? ==> req.name.value != [] && |req.name.value| <= WorkspaceSchema.NameMaxLength
  {
  }

  /** Validation ignores IsPublic: any value of it is accepted alongside otherwise valid fields. */
  lemma UpdateValidIgnoresIsPublic(req: UpdateWorkspaceRequest, isPublic: Option<bool>)
    ensures UpdateValid(req.(isPublic := isPublic)) <==> UpdateValid(req)
  {
  }
}
