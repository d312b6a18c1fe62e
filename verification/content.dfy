/** The `/examplecontent` endpoints: each builds a fresh response object and
    copies fields of the request into it. Names are optional because a Java
    bean's `name` starts out null and is copied as it is. */
module ExampleContent {
  import opened Results

  /** The body of a POST or PUT request. */
  datatype Request = Request(name: Option<string>, requestType: string)

  /** The body of a POST or PUT response. */
  datatype Response = Response(name: Option<string>, requestType: string, metadata: Option<map<string, string>>)

  /** The `requestType` a fresh POST response carries. */
  const PostResponseType: string := "ExamplePostResponse"

  /** The `requestType` a fresh PUT response carries. */
  const PutResponseType: string := "ExamplePutResponse"

  /** A freshly constructed response bean: no name, no metadata. */
  function NewResponse(requestType: string): Response {
    Response(None, requestType, None)
  }

  /** `examplePost`: the response carries the request's name, keeps its
      default type, and has no metadata. */
  function ExamplePost(req: Request): (r: Response)
    ensures r.name == req.name
    ensures r.requestType == PostResponseType
    ensures r.metadata == None
  {
    NewResponse(PostResponseType).(name := req.name)
  }

  /** The PUT overload of `examplePost`: the response carries the request's
      name and has no metadata. */
  function ExamplePut(req: Request): (r: Response)
    ensures r.name == req.name
    ensures r.requestType == PutResponseType
    ensures r.metadata == None
  {
    NewResponse(PutResponseType).(name := req.name)
  }

  /** `examplePutWithPathParam`: the name comes from the request body, and the
      path parameter appears only as the single metadata entry `"name"`. */
  function ExamplePutWithPathParam(pathName: string, req: Request): (r: Response)
    ensures r.name == req.name
    ensures r.requestType == PutResponseType
    ensures r.metadata.Some? && r.metadata.value.Keys == {"name"} && r.metadata.value["name"] == pathName
  {
    NewResponse(PutResponseType).(name := req.name).(metadata := Some(map["name" := pathName]))
  }

  /** The path-parameter PUT is the plain PUT plus one metadata entry: the
      path parameter never leaks into the name. */
  lemma PathParamOnlyInMetadata(pathName: string, req: Request)
    ensures ExamplePutWithPathParam(pathName, req).(metadata := None) == ExamplePut(req)
  {
  }

  /** A response determines the request name it was built from, and nothing
      else of the request matters: the endpoints ignore `requestType`. */
  lemma ResponsesDetermineName(a: Request, b: Request, pathName: string)
    ensures ExamplePost(a) == ExamplePost(b) <==> a.name == b.name
    ensures ExamplePut(a) == ExamplePut(b) <==> a.name == b.name
    ensures ExamplePutWithPathParam(pathName, a) == ExamplePutWithPathParam(pathName, b) <==> a.name == b.name
  {
  }
}
