# Contact-form server: spreadsheet log, confirmation mail, contact schema

This project models, in Dafny, the logic inside a small Express server that
takes a contact-form submission on `POST /send-email`. The server appends the
submission as one row to the "Form Submissions" sheet of the workbook file
`data.xlsx`, recomputes the sheet's column widths, sends the submitter a
confirmation mail, and answers 200 or 500. The project also models the field
rules of the Mongoose `Contact` schema as a validator.

Modules, one per concern:

- `Records` (records.dfy): row objects as the server handles them. A cell is a
  string or `undefined`. A row's field order stands for `Object.keys` order;
  for the non-numeric keys the server writes, that is insertion order.
  It models property access `row[key]`, `String(v || "")`, and JavaScript's
  UTF-16 `.length`.
- `Excel` (excel.dfy): `autoAdjustColumnWidths` and `appendToExcel`. The
  file on disk is a `Disk` value: the workbook (or none, when the file does
  not exist) and whether reading and writing succeed. The method follows the
  source's three branches (no file, no sheet, sheet present) with the same
  local variables. It is proved against the function `Appended`, and the
  append properties are proved about `Appended`.
- `Server` (server.dfy): the record built from the request body, the
  confirmation-mail template, and the handler's try/catch outcome. The mail
  relay is a flag `relayDelivers` that says whether delivery succeeds.
- `ContactModel` (contact_model.dfy): the schema is a table of path rules, and
  `Violations` lists the paths a record breaks.
- `Wrappers` (wrappers.dfy): an `Option` type.

Decisions:

- `json_to_sheet` and `sheet_to_json` belong to the xlsx library, whose code
  is not part of this model. A `Sheet` stores its rows directly. So decoding a
  sheet gives back exactly the rows it was encoded from (`SheetRoundTrip`).
  This is an assumption about the library, built into the representation.
- `required` on a String path follows Mongoose's rule: `undefined` and the
  empty string both fail. The `enum` rule lets an unset value through, and
  `required` then rejects it. Both rules come from the Mongoose library, not
  from the repository.
- `${x}` with `x` undefined renders as `"undefined"` (`Interpolate`).
- server.js never imports contactModel.js and saves nothing to a database,
  so the handler runs only the spreadsheet append and then the mail.
  A submission without a subject is logged, and gets 200 when the file and
  the relay succeed. Nothing rejects it.

## Model

| member | source | states |
|---|---|---|
| `Records.Keys` | server.js:26 | `Object.keys(row)` has one key per field, in field order |
| `Records.Lookup` | server.js:29 | property access `row[key]`: the first field with that key, or `undefined` |
| `Records.CellText` | server.js:29 | the stringified cell, falling back to "" for a falsy value: the text is empty exactly for `undefined` and the empty string, and any string cell gives itself |
| `Records.LookupFindsFirst` | server.js:29 | `row[key]` is `undefined` for a key the row lacks; otherwise it is the value of the first field with that key |
| `Records.LookupField` | server.js:29 | in a row with distinct keys, reading a field's key gives that field's value |
| `Records.Utf16Length` | server.js:28-29 | `.length` counts UTF-16 code units: between 1 and 2 per character, and 0 only for the empty string |
| `Records.Utf16LengthOfBmp` | server.js:28-29 | on text with no character above U+FFFF, `.length` equals the character count |
| `Excel.CellWidth` | server.js:29 | the length of the stringified cell `row[key]` (or of "" for a falsy one), in UTF-16 code units |
| `Excel.MissingOrEmptyCellIsZero` | server.js:29 | a cell whose key the row lacks has width 0; a cell has width 0 exactly when it is `undefined` or the empty string |
| `Excel.MaxContentWidth` | server.js:29 | the longest stringified cell of a column is at least every cell's length and equals one of them; it is 0 with no rows (missing cells count as 0 by `MissingOrEmptyCellIsZero`) |
| `Excel.ColumnWidth` | server.js:27-30 | a column's width is at least header length + 2 and at least every cell length + 2, and equals one of these |
| `Excel.ColumnWidthUnique` | server.js:27-30 | those bounds fix the width: two widths that both satisfy them are equal |
| `Excel.ColumnWidths` | server.js:26-31 | no rows gives no widths; otherwise there is exactly one width per key of the first row, in key order, each satisfying the bounds above over all rows |
| `Excel.LaterKeysGetNoWidth` | server.js:26-30 | for all rows: a key missing from the first row gets no width; every width belongs to a first-row key and bounds that column's cells in all rows |
| `Excel.ExampleColumnWidths` | server.js:26-30 | a sample: a key only in the second row gets no width, and the first-row key's width covers the second row's longer cell |
| `Excel.AutoAdjustColumnWidths` | server.js:25-33 | only the sheet's `!cols` changes; it gets one width per first-row key, each satisfying the bounds |
| `Excel.JsonToSheet` | server.js:50-64 | `json_to_sheet(rows)`: a sheet encoding `rows`, with no column widths yet |
| `Excel.SheetToJson` | server.js:48 | `sheet_to_json(worksheet)`: the rows the sheet encodes |
| `Excel.SheetRoundTrip` | server.js:48-64 | the assumed library property: decoding an encoded sheet gives back its rows |
| `Excel.BookNew` | server.js:55 | a new workbook has no sheets and is well formed |
| `Excel.BookAppendSheet` | server.js:51 | for a name not yet in the names or the sheets, appending a sheet adds the name at the end of the names and the sheet under that name; well-formedness is kept |
| `Excel.Appended` | server.js:42-70 | the named sheet holds the logged rows (none without file or sheet) followed by the new record, with widths recomputed over all of them; every other sheet is unchanged and no sheet is added or dropped besides it; the sheet names stay as they were when the sheet existed, and otherwise gain the name at the end; a well-formed workbook stays well formed; a new file holds just this sheet |
| `Excel.AppendToExcel` | server.js:36-73 | the append throws when an existing file cannot be read, when the names list already has the missing sheet's name (the library's refusal), or when the file cannot be written; otherwise the written workbook is `Appended(file, data)` |
| `Excel.AppendKeepsEarlierRows` | server.js:48-61 | after an append the log is one row longer, the earlier rows keep their order and contents, and the last row is the new record |
| `Excel.NewSheetHoldsOneRow` | server.js:49-61 | with no file, or no sheet in it, the sheet afterwards holds exactly the new record; a new file holds only that sheet |
| `Excel.RepeatedAppendLogsTwice` | server.js:61 | appending is not idempotent: the same record appended twice is logged twice |
| `Server.BuildRecord` | server.js:83-91 | the logged record has exactly the keys fullName, email, phone, subject, message, preferredContact, date, in that order, each once |
| `Server.RecordTakesBodyFields` | server.js:79-91 | each key of the record holds the request-body field of that name, and `date` holds the submission time |
| `Server.ConfirmationMail` | server.js:102-107 | the mail goes from the configured sender to the body's `email`; the subject is exactly "Thank you for contacting us, " + name + "!"; the text is exactly "Hello " + name, the fixed preamble, the message and the fixed closing, in that order |
| `Server.SubjectNamesSubmitter` | server.js:105 | the submitter's name can be read back from the subject |
| `Server.TextQuotesMessage` | server.js:106 | the submitter's message can be read back unchanged from the mail text |
| `Server.ExampleSubmission` | server.js:83-106 | for the Jane Doe submission, the mail goes to jane@example.com with subject "Thank you for contacting us, Jane Doe!", and a missing file ends up holding just that record |
| `Server.Interpolate` | server.js:105-106 | `${x}` in a template: the string itself, or "undefined" for an undefined field |
| `Server.SendEmail` | server.js:76-117 | the response is the fixed 200 or the fixed 500. It is 200 exactly when every step of the append succeeds and the relay delivers. The mail is attempted only after a successful append. The file holds the appended workbook whenever the append succeeded, even if the mail then fails, and is unchanged otherwise |
| `ContactModel.Violations` | contactModel.js:3-10 | a path is listed exactly when its rule fails for the record; at most one entry per rule, and no path twice when the schema declares each path once |
| `ContactModel.IsValidContact` | contactModel.js:3-10 | the schema accepts the record: no rule is violated |
| `ContactModel.ValidIffAllRulesMet` | contactModel.js:3-10 | a record is valid exactly when every schema rule holds for it |
| `ContactModel.ValidContactIff` | contactModel.js:3-10 | valid exactly when fullName, email, subject and message are non-empty strings and preferredContact is "email" or "phone" |
| `ContactModel.MissingFullNameInvalid` | contactModel.js:4 | a record without a fullName is invalid, and fullName is reported |
| `ContactModel.MissingEmailInvalid` | contactModel.js:5 | a record without an email is invalid, and email is reported |
| `ContactModel.PhoneOptional` | contactModel.js:6 | a record meeting the other rules is valid whatever its phone, including none |
| `ContactModel.MissingSubjectOrMessageInvalid` | contactModel.js:7-8 | a record without a subject or without a message is invalid, and the missing path is reported |
| `ContactModel.PreferredContactOutsideEnumInvalid` | contactModel.js:9 | a preferredContact that is unset or not "email"/"phone" makes the record invalid, and that path is reported |
| `ContactModel.ViolationsReadOnlySchemaPaths` | contactModel.js:3-10 | records that agree on the schema's paths get the same violations |
| `ContactModel.OnlySchemaFieldsMatter` | contactModel.js:3-10 | no field outside the schema affects validity |

## Left out

- Express setup, CORS, JSON body parsing, `app.listen` and the PORT default (server.js:14-18, 120-123). These are framework and network plumbing. A request whose body is not an object is not modelled.
- File I/O: `fs.existsSync`, `XLSX.readFile` and `XLSX.writeFile` (server.js:42-43, 71). The file is a `Disk` value, and reading and writing succeed or fail as its flags say. A failed write leaves the file as it was.
- The xlsx encoding (server.js:48, 50, 55-57, 64). The library is not part of this repository. Decoding is assumed to give back the encoded rows, by construction of `Sheet`. Real decoding drops empty cells and orders keys by header, and the model does not capture that.
- `nodemailer` transport creation and `sendMail` (server.js:94-109). The relay's outcome is the input flag `relayDelivers`. Its credentials are not modelled: `sender` stands for `EMAIL_USER`, and `EMAIL_PASS` is left out.
- `new Date().toLocaleString()` (server.js:90). It depends on the clock and the locale, so `date` is an input string.
- `dotenv`, the `console` logging and the error logged in the catch (server.js:11, 72, 77, 110, 114). These are configuration and output only.
- The lost update when two appends to the same file race. It is a concurrency issue.
- Mongoose persistence: ids, timestamps, the collection name and the database connection (contactModel.js:10, 12). Only the declared field rules are modelled.
- JavaScript coercion. Cells are strings or `undefined`. Numbers, booleans, `null` and objects in the body are not modelled, and neither is Mongoose's casting of non-strings to String.
- `Excel.MaxContentWidth`: spreading a very large row array into `Math.max` can exceed the engine's argument limit. This engine limit is not modelled.
- `Records.Lookup`: a key the row lacks reads as `undefined`, also for names that `Object.prototype` supplies (`toString`, `constructor`, `valueOf`, ...). In JavaScript `row["toString"]` is then the inherited function, so a user-edited header of that name would get a width from the function's source text in later rows. Cells are strings or `undefined` only, so inherited members are not modelled.
- `Object.keys` lists integer-like keys ("0", "12") first, in ascending numeric order, before the other keys in insertion order. A row's field order is taken as the key order, so a header made of digits in a user-edited file is not reordered.
- The workbook and worksheet objects that `appendToExcel` mutates (`book_append_sheet`, `Sheets[...] =`, `!cols`) are modelled as values. The method reassigns them. Both are local to the call, so no aliasing is lost.
