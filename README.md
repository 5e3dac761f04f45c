# Project accessors and routes of radicle-interface

This project models `src/project.ts` of the radicle web interface in Dafny.
The file has three parts:

- the record shapes the seed API answers with (project, info, tree, blob,
  commit header, ...);
- the four accessors `getInfo`, `getTree`, `getBlob` and `getReadme`, each of
  which builds a relative request path and hands it to the HTTP transport;
- the client-side route builder `path({ urn, org?, commit?, path? })`.

Modules:

- `Wrappers` (`wrappers.dfy`): `Option`, which stands for the optional
  properties of the route options object.
- `ProjectApi` (`project.dfy`): the records, the route builder and the
  request paths.

The route builder is modelled as the source writes it. `ProjectApi.Path`
is a method that grows a local list of segments by conditional pushes and
then joins it. It is proved equal to two specifications:

- `Route`, the segment list `Segments` joined by `/` behind a leading `/`;
- `RouteFormat`, the documented format
  `/[orgs/{org}/]projects/{urn}[/{commit}|/head][/{path}]` written directly
  as a string.

The properties of the route are lemmas about `Route`.

JavaScript truthiness decides which options count. `if (org)` is false for
both `undefined` and `""`. The predicate `Present` captures this: an option
counts only when it is `Some` and not empty. `EmptyOptionIsAbsent` proves
that `Some("")` gives the same route as `None`.

No segment is escaped or validated. A `urn`, `commit` or `path` containing
`/` is spliced in verbatim. For that reason the model claims no injectivity
of `path`.

`getTree` rewrites a directory of exactly `"/"` to `""` before it builds the
request path. `GetTreeRequest` models this as a method that reassigns its
parameter, and it is proved against the function `TreeUrl`. The other three
request paths are plain string templates, modelled as functions. Each of
them states that every input appears verbatim at a fixed offset.

## Model

| member | source | states |
|---|---|---|
| `ProjectApi.ObjectTypeName` | src/project.ts:42-45 | The two object kinds have the wire names `BLOB` and `TREE`, and each name belongs to exactly one kind. |
| `ProjectApi.JoinShape` | src/project.ts:129 | `join` of a non-empty list starts with the first segment and ends with the last. Its length is the sum of the segment lengths plus one separator per gap. |
| `ProjectApi.JoinSlashed` | src/project.ts:129 | A `/` followed by the `/`-join of a non-empty list equals the list with a `/` before every segment. |
| `ProjectApi.Segments` | src/project.ts:113-128 | The collected segment list has between 2 and 6 elements. `"projects"` sits at index 0, or at index 2 after `orgs/<org>`, and the urn immediately follows it. |
| `ProjectApi.Route` | src/project.ts:129 | The route always starts with `/`. |
| `ProjectApi.RouteMatchesFormat` | src/project.ts:113-129 | Joining the segments gives exactly the documented format `/[orgs/{org}/]projects/{urn}[/{commit}\|/head][/{path}]`, for every input. |
| `ProjectApi.Path` | src/project.ts:109-130 | The step-by-step builder (conditional pushes, then join) returns `Route(opts)`, which is also the documented format. |
| `ProjectApi.EmptyOptionIsAbsent` | src/project.ts:115-128 | An empty `org`, `commit` or `path` gives the same route as an absent one. |
| `ProjectApi.BareRoute` | src/project.ts:118-129 | With `org`, `commit` and `path` all absent or empty, the route is exactly `/projects/<urn>`. |
| `ProjectApi.RoutePrefix` | src/project.ts:115-118 | With an organisation, the route starts with `/orgs/<org>/projects/<urn>`. Without one, it starts with `/projects/<urn>`. |
| `ProjectApi.CommitFollowsUrn` | src/project.ts:120-121 | With a commit, the segment after the urn is the commit, and only the path (if present) follows it. No `head` segment is added. |
| `ProjectApi.HeadBeforePath` | src/project.ts:122-128 | Without a commit but with a path, the last two segments are `head` and the path, and the route ends with `/head/<path>`. |
| `ProjectApi.RouteSuffix` | src/project.ts:120-128 | With a path, the route ends with `/<path>`. Without one, nothing follows the commit or urn: the route ends with `/<commit>` if a commit is given and with `/<urn>` otherwise. |
| `ProjectApi.BareExample` | src/project.ts:109-130 | Documented example: `{urn:"p1"}` gives `/projects/p1`. |
| `ProjectApi.OrgExample` | src/project.ts:109-130 | Documented example: `{urn:"p1", org:"acme"}` gives `/orgs/acme/projects/p1`. |
| `ProjectApi.HeadExample` | src/project.ts:109-130 | Documented example: `{urn:"p1", path:"src/x.ts"}` gives `/projects/p1/head/src/x.ts`. |
| `ProjectApi.CommitExample` | src/project.ts:109-130 | Documented example: `{urn:"p1", commit:"abc123", path:"src/x.ts"}` gives `/projects/p1/abc123/src/x.ts`. |
| `ProjectApi.InfoUrl` | src/project.ts:75-77 | The `getInfo` request path is `projects/` followed by the urn, verbatim, and nothing else. |
| `ProjectApi.TreeDir` | src/project.ts:85-87 | The directory `getTree` requests is empty exactly when the given one is `""` or `"/"`. Any other string passes through unchanged. |
| `ProjectApi.TreeUrl` | src/project.ts:79-89 | The `getTree` request path is `projects/<urn>/tree/<commit>/<dir>`. The urn and commit sit verbatim at fixed offsets, and the path ends with `/` and the normalised directory. |
| `ProjectApi.GetTreeRequest` | src/project.ts:79-89 | The accessor as written, which reassigns `path` when it is `"/"`, builds exactly `TreeUrl`. |
| `ProjectApi.TreeUrlSameDir` | src/project.ts:85-88 | For one urn and commit, two tree requests coincide if and only if the directories are equal or both are `""`/`"/"`. So `"/"` requests the same path as `""`. |
| `ProjectApi.BlobUrl` | src/project.ts:91-99 | The `getBlob` request path is `projects/<urn>/blob/<commit>/<path>`. The urn and commit sit verbatim at fixed offsets, and the path ends with `/` and the file path, unchanged. |
| `ProjectApi.ReadmeUrl` | src/project.ts:101-107 | The `getReadme` request path is `projects/<urn>/readme/<commit>`, with both inputs spliced in verbatim. |
| `ProjectApi.RequestPathsDistinct` | src/project.ts:75-107 | For one urn, the info, tree, blob and readme request paths never coincide, whatever the commits, directory and path. |

## Left out

- `api.get` and `Config`: the HTTP transport and configuration are outside this model. Each accessor is modelled only by the request path it would hand to the transport.
- `async`/`Promise` behaviour and error propagation from the transport: these are asynchronous I/O with no local logic.
- The `highlight` options object of `getBlob`: it is forwarded untouched to the transport.
- The response records are declared as plain datatypes with no invariants, because the code validates nothing it receives. In particular, `objectType` is not tied to an entry's content.
- JavaScript `number` fields (`committerTime`, `commits`, `contributors`) are modelled as `int`: no arithmetic is done on them.
