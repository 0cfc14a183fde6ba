# Church site request gate and API handlers, modelled in Dafny

This project models the part of a small Next.js church site that decides
things, rather than draws them:

- the request gate of `middleware.ts`. It sends each request on, with or
  without the four CORS headers, answers a CORS preflight itself, or
  redirects it to the login page;
- the phone mask `formatPhone` of the volunteer sign-up page;
- `POST /api/volunteers`: schema validation, then the duplicate-email check,
  then one insert into the volunteer table;
- `GET` and `POST /api/agenda`: the agenda listing by date, and agenda
  creation with its "first user, or a new default user" owner;
- `POST /api/upload`: a file is accepted only if it is one of four image
  types, and is written as `<uuid><extension>` into the uploads directory;
- `GET /api/images`: the uploads directory listing, filtered by extension and
  mapped to `/uploads/...` paths.

The database tables and the uploads directory are classes whose fields the
handlers update (`Volunteers.VolunteerTable`, `Agendas.AgendaDb`,
`Storage.UploadsDir`). The gate, the mask, the schema, the listing order and
the image filter are functions. Each module sits in its own file:
`gate.dfy`, `phone.dfy`, `volunteers.dfy`, `agenda.dfy`, `storage.dfy`,
`upload.dfy`, `images.dfy`. Two small helper modules, `wrappers.dfy` and
`text.dfy`, hold `Option`/`Result` and the JavaScript string operations the
handlers use.

Inputs the handlers get from outside are parameters of the model:

- the email format check of zod (`validEmail`);
- `new Date(...)` (`parseDate`, where `None` is an invalid date);
- the value of `uuidv4()`;
- the order in which `readdirSync` lists the directory;
- whether a database or file-system call throws (a `Fault` or a boolean).

Database ids are drawn from counters in the table classes.

Behaviour of the code worth noting, which the model keeps:

- the branch of `middleware.ts` that would send a logged-in user from
  `/auth` to `/app` is unreachable, because the allow-list catches `/auth`
  first (`Gate.NeverRedirectsToApp`);
- a session is only the presence of the session cookie. Its value is never
  checked;
- `ministry` is any non-empty string, not one of a fixed set;
- a failing database call in the volunteer handler gives 400, not 500;
- a successful upload answers 200, not 201.

## Model

| member | source | states |
|---|---|---|
| `Gate.Middleware` | middleware.ts:9-49 | the gate answers a request itself only for an `/api/` OPTIONS preflight, with 200, and redirects only outside `/api/` and only to `/auth` or `/app`; its branches are described by the lemmas below |
| `Gate.ApiForwardedWithCors` | middleware.ts:13-28 | an `/api/` request that is not OPTIONS is forwarded with exactly the four CORS headers (credentials `true`, the fixed method and header lists), whatever the session |
| `Gate.PreflightAnswered` | middleware.ts:13-25 | an `/api/` OPTIONS request is answered here with 200 and exactly the four CORS headers with their values (credentials `true`, the request's Allow-Origin, the fixed method and header lists), not forwarded |
| `Gate.ApiNeverRedirected` | middleware.ts:13-28 | no `/api/` path is ever redirected |
| `Gate.AllowOriginEchoesOrigin` | middleware.ts:18 | Allow-Origin is the request's Origin header when it is present and non-empty, otherwise `*` |
| `Gate.PublicPathsPassThrough` | middleware.ts:30-36 | outside `/api/`, paths containing `/favicon.ico`, starting with `/_next`, equal to `/` or starting with `/auth` pass through with no session check |
| `Gate.AuthPathIsPublic` | middleware.ts:33 | `/auth` itself is on the allow-list |
| `Gate.NeverRedirectsToApp` | middleware.ts:38-40 | no request is ever redirected to `/app`: the allow-list has already caught `/auth` |
| `Gate.AppGated` | middleware.ts:42-46 | a path starting with `/app` (and not allow-listed) redirects to `/auth` without the session cookie and passes through with it |
| `Gate.ApplicationIsGated` | middleware.ts:42-46 | the test is a plain prefix: `/application` without a session is redirected to `/auth` |
| `Gate.SessionIsCookiePresence` | middleware.ts:10 | two requests that differ only in the session cookie's value, not its presence, get the same decision |
| `Gate.ExactlyOneOutcome` | middleware.ts:13-48 | every request gets exactly one of CORS-forward, preflight 200, pass-through or redirect to `/auth`; the first two exactly for `/api/` paths (split by OPTIONS), the redirect exactly for a cookie-less `/app` path |
| `Text.Lower` | app/api/images/route.ts:17 | `toLowerCase` keeps the length and lower-cases each ASCII letter in place |
| `PhoneMask.DigitsOf` | app/voluntarios/page.tsx:37 | stripping non-digits leaves only ASCII digits and never lengthens the text |
| `PhoneMask.RenderDigits` | app/voluntarios/page.tsx:41-42 | the separators add no digit: the digits of a rendering are its three groups in order |
| `PhoneMask.MaskDigits` | app/voluntarios/page.tsx:39-49 | laying out a digit string with either pattern keeps exactly its digits |
| `PhoneMask.FormatPhone` | app/voluntarios/page.tsx:36-50 | the digits of the mask, in order, are exactly the first min(11, #digits) digits of the input, and every other character is `(`, `)`, a space or `-`; its shape is given by the lemmas below |
| `PhoneMask.LayoutShape` | app/voluntarios/page.tsx:38-49 | the mask of 0, 1-2, 3-6, 7-10 and 11 digits, written out group by group |
| `PhoneMask.FullNumbers` | app/voluntarios/page.tsx:38-49 | ten digits give `(dd) dddd-dddd` (14 characters), eleven give `(dd) ddddd-dddd` (15 characters) |
| `PhoneMask.ShortInputs` | app/voluntarios/page.tsx:42 | no digits give `""`; one or two digits give `(` and those digits, with no closing parenthesis |
| `PhoneMask.FormatLength` | app/voluntarios/page.tsx:36-50 | the mask's length is a fixed function of the number of digits kept and never exceeds 15, the field's `maxLength` |
| `PhoneMask.SeparatorsFollowGroups` | app/voluntarios/page.tsx:42 | `(` appears iff there is a digit, `)` iff there are more than 2, `-` iff there are more than 6 |
| `PhoneMask.FormatIdempotent` | app/voluntarios/page.tsx:148 | masking an already-masked value changes nothing |
| `PhoneMask.LongEnoughIffTenDigits` | app/voluntarios/page.tsx:36-50 | a masked value has at least 14 characters exactly when it holds at least ten digits |
| `Volunteers.MaskedPhonePassesIffTenDigits` | app/api/volunteers/route.ts:8 | a phone typed through the page's mask passes the server's 14-character rule exactly when ten or more digits were kept |
| `Volunteers.MeetsSchema` | app/api/volunteers/route.ts:5-11 | a body meets the schema exactly when each of the five fields meets its own rule (name of 3+ characters, valid email, phone of 14+, boolean `baptized`, non-empty ministry); `Volunteers.SchemaIffNoIssues` ties this to the reported issues |
| `Volunteers.Issues` | app/api/volunteers/route.ts:5-11 | a schema field is reported as an issue exactly when it fails its rule, and only schema fields are reported |
| `Volunteers.SchemaIffNoIssues` | app/api/volunteers/route.ts:5-11 | the five rules all hold exactly when no issue is reported |
| `Volunteers.Validate` | app/api/volunteers/route.ts:18 | parsing succeeds exactly for an object meeting all five rules and then yields its five fields; a failure always carries at least one issue |
| `Volunteers.IssueNamesEveryFailingField` | app/api/volunteers/route.ts:5-11 | each failing rule (name < 3, bad email, phone < 14, non-boolean `baptized`, empty ministry) on its own rejects the body and is named in the details |
| `Volunteers.MinistryIsFreeText` | app/api/volunteers/route.ts:10 | any non-empty ministry string is accepted; there is no fixed list |
| `Volunteers.UniqueRows` | app/api/volunteers/route.ts:21-41 | no two rows of the table share an email or an id, an invariant every `Volunteers.Post` keeps |
| `Volunteers.Post` | app/api/volunteers/route.ts:13-59 | status is 201 or 400, never 500; invalid JSON, schema failure, duplicate email or a failing call leave the table unchanged with their own message, and only the schema failure carries `details` (the issues); success adds exactly the one validated row under its email and returns it |
| `Agendas.Insert` | app/api/agenda/route.ts:6-10 | inserting into a date-sorted list keeps it sorted and adds exactly that agenda |
| `Agendas.SortByDate` | app/api/agenda/route.ts:6-10 | the listing order is by date ascending and is a permutation of the stored agendas |
| `Agendas.Get` | app/api/agenda/route.ts:4-17 | GET answers 200 with every stored agenda, as a permutation sorted by date ascending, or 500 when the query fails |
| `Agendas.Post` | app/api/agenda/route.ts:19-57 | a falsy title or date gives 400 before any table access; otherwise the owner is the first user, or one inserted `Default User`/`default@example.com` when there is none; success appends one agenda with the given title, description and date, owned by that user and with no image, and answers 201; a body that is not JSON or is JSON `null`, a failing call or an invalid date give 500 |
| `Storage.UploadsDir.Mkdir` | app/api/upload/route.ts:27 | `mkdir -p` makes the directory exist and keeps its files |
| `Storage.UploadsDir.WriteFile` | app/api/upload/route.ts:36 | writing creates or replaces one file and changes no other |
| `Storage.TrimTrailingSlashes` | app/api/upload/route.ts:29 | the name without the `/` characters that end it: a prefix of it, not ending in `/`, with only `/` dropped |
| `Storage.SlashCut` | app/api/upload/route.ts:29 | the text after the last `/` starts just past a `/`, or at 0, and holds no `/` |
| `Storage.AfterLastSlash` | app/api/upload/route.ts:29 | the text after the last `/`: a suffix with no `/`, either the whole text or preceded by a `/` |
| `Storage.BaseName` | app/api/upload/route.ts:29 | the last component of the path: the suffix of the name without its trailing slashes that has no `/` and is either all of it or preceded by a `/`; the whole name when the name has none |
| `Storage.BaseExt` | app/api/upload/route.ts:29 | the extension of a base name is a suffix of it that starts with its only `.`; it is empty exactly when no `.` follows the first character or the name is `..` |
| `Storage.ExtName` | app/api/upload/route.ts:29 | `path.extname` (POSIX): the extension of the base name; it has no `/`, and when non-empty starts with its only `.` |
| `Storage.DirectoryDotIsNoExtension` | app/api/upload/route.ts:29 | a `.` in a directory part is no extension: `a.b/c` has none |
| `Storage.ExtNameAfterPrefix` | app/api/upload/route.ts:29-30 | putting a non-empty name free of `.` and `/` in front of an extension leaves that extension unchanged |
| `Storage.ExtNameLower` | app/api/images/route.ts:17 | the extension of a lower-cased name is the lower-cased extension |
| `Upload.Post` | app/api/upload/route.ts:6-52 | a missing file (checked first, so a missing file is never reported as a bad type) gives 400, then a type outside the four image types gives 400, both writing nothing; otherwise the directory is created and exactly one entry `uuid + extname(name)` is written, all others unchanged, answered with status 200 and url `/uploads/<name>`; unreadable form data or a failing `mkdir` give 500 and change nothing; a `writeFile` that throws gives 500 and leaves either no new file (it failed before opening) or the file created or truncated and holding a prefix of the bytes (it failed after opening) |
| `Upload.Written` | app/api/upload/route.ts:36 | what a write cut short leaves in the file is a prefix of the bytes: all of them, or the first `n` |
| `Upload.StoredName` | app/api/upload/route.ts:29-30 | the stored name is the uuid followed by nothing or by a `.`-led extension with no `/`, so a uuid without `/` keeps the file directly in the uploads directory whatever name the client sent |
| `Upload.StoredNameKeepsExtension` | app/api/upload/route.ts:29-40 | the stored name keeps the uploaded name's extension, and the url ends with the stored name |
| `Images.Filter` | app/api/images/route.ts:16-19 | the filter keeps exactly the names the test accepts, and never more names than it is given |
| `Images.UploadPaths` | app/api/images/route.ts:21 | the i-th path is `/uploads/` followed by the i-th kept name |
| `Images.KeepImages` | app/api/images/route.ts:16-19 | the kept names are exactly the listing's image names, never more of them; `Images.KeepImagesInOrder` and `Images.KeepImagesIdempotent` give their order and stability |
| `Images.KeepImagesInOrder` | app/api/images/route.ts:16-19 | the kept names are a subsequence of the listing, in its order |
| `Images.KeepImagesIdempotent` | app/api/images/route.ts:16-19 | filtering the kept names again keeps them all |
| `Images.ExtensionCaseIgnored` | app/api/images/route.ts:17-18 | a name is kept exactly when its lower-cased form is, so the test ignores case |
| `Images.NoExtensionNeverListed` | app/api/images/route.ts:17-18 | a name without an extension is never kept |
| `Images.UpperCasePngListed` | app/api/images/route.ts:17-18 | `A.PNG` is kept |
| `Images.UploadListedIffImageExtension` | app/api/images/route.ts:15-19 | an uploaded file shows in the listing exactly when the name it was uploaded under has an image extension, whatever its MIME type was |
| `Images.Get` | app/api/images/route.ts:5-34 | the files are unchanged; the directory exists afterwards unless creating it failed, which gives 500; otherwise the answer is 200 with the `/uploads/` paths of the kept names of the listing, empty if the directory did not exist, or 500 when reading fails |

## Left out

- `config.matcher` of middleware.ts is documentation only. The Next.js
  runtime applies it before the middleware runs, and the model takes every
  path as reaching the middleware.
- The redirect URL is given as a path (`/auth`). The model does not build
  the full URL from `request.url`.
- Gate.Middleware: a `Redirect` carries no status; `NextResponse.redirect`
  answers it with 307, which the model does not record.
- The React pages and components, the NextAuth configuration, the session
  endpoint and the single-agenda `[id]` handlers are not part of this model.
- Prisma, `fs`, `path`, `uuid` and zod are replaced as follows:
  - the tables and the directory become classes;
  - the email regex and `new Date` become the parameters `validEmail` and
    `parseDate`;
  - the uuid and the directory listing become parameters.
- Volunteers.Validate: zod's `min` counts UTF-16 code units, while the model
  counts characters. The two differ only for characters outside the Basic
  Multilingual Plane.
- Volunteers.Validate: zod's issue objects are reduced to the field they
  name, and their messages are not modelled.
- Agendas.Post: a non-string JSON title, description or date is not
  modelled; all three are strings or absent in the model. In the code a
  non-string description, or a title of another type, makes the insert
  throw (500), and a non-string date goes to `new Date` as it is.
- Agendas.Post: `createdAt`, `updatedAt` and the exception text in `details`
  are not modelled; they come from the clock and the database.
- Agendas.Post: `findFirst()` without `orderBy` is taken to return the first
  user in insertion order. The database does not promise any order.
- Agendas.SortByDate: agendas with equal dates may come in any order from
  the database. The model fixes one order, and the properties proved do not
  depend on it.
- Storage.ExtName: models the POSIX `path.extname`. The Windows variant,
  with `\` and drive letters, is not modelled.
- Text.Lower: lower-cases only ASCII letters. No other character lower-cases
  into one of the five extensions, so whether a name is kept does not change.
- The find-then-insert races (volunteer email check, default user) are not
  modelled. Each handler runs as one atomic step.
- The file bytes are taken as given. `arrayBuffer` and `Buffer.from` are not
  modelled.
