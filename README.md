# senna-car-pdf-importer, the report parsers in Dafny

This project models the parsers of the SENNACAR "Venda X Cliente" sales report.
They take the text a PDF library has already pulled out of a report, line by line, and turn it into
customer sales records: a customer, the first and last sale dates, and the amounts (average sale,
quantity, sales cost, returns, cost of returns, total, total cost, profit in reais and in percent).
The application has four of these pipelines, and they differ in how they tell rows, customers and
amounts apart:

- the text-report importer (`PdfTextConverterResource`) finds a header line, drops noise lines,
  joins rows wrapped over two physical lines, and maps the numbers of a row onto the record by
  position, with negative numbers taken first as returns (modules `ReportLines`, `ReportParser`,
  `ReportExtract`); its clean-up action removes pagination, banners and repeated headers from the
  stored text (`TextCleanup`);
- the upload importer (`PdfUploadResource`) finds a header by counting column patterns, splits each
  data row into fields, takes the first field that looks like a name as the customer, and sorts
  every other field into a slot by its shape and size (`UploadHeader`, `UploadRows`, `UploadParser`);
- the console command `pdf:processar` (`ProcessarPdfCommand`) deletes dates, amounts and percentages
  from a line and keeps what is left as the customer (`ProcessCommand`);
- the positional parser left in the upload page (`CreatePdfUpload`) takes the first word as the
  customer and the first three numbers as amounts (`CreateUpload`).

The value converters shared by these pipelines are in `Converters`. The file-size and status
accessors of the two Eloquent models are in `FileModels`. The PHP primitives the parsers rely on
are in `Text`, `Numeric` and `Scan`: `trim`, whitespace collapsing, `explode`, `preg_split`,
`str_replace`, `stripos`, `strlen` as a UTF-8 byte count, `is_numeric`, `floatval` and `intval`,
and the leftmost, non-overlapping matches of the regular expressions involved.
Where the PHP code is a loop, the model is a method with that loop, proved against a function that
states the result. Properties of that function are then proved as lemmas.

Two of the pipelines, the upload importer's driver and the console command, call methods their
classes do not define, and the console command also returns a variable it never wrote. The model
follows the code: both runs end with a `Crash` value as soon as a line reaches the missing call or,
in the command, the read of the unwritten variable. So as written neither pipeline can return a record. For each of
them a corrected version is modelled as well, and lemmas relate the two (see "## Findings").

Dates are handled in two ways. `converterData` of the text-report importer is string manipulation
and is modelled exactly. It has no range check, so "13/13/2024" becomes "2024-13-13", which is what
the code does. The other pipelines call `DateTime::createFromFormat('d/m/Y', ...)`, and that call
is the parameter `brDate`.

## Model

| member | source | states |
|---|---|---|
| Numeric.Saturate | app/Filament/Resources/PdfTextConverterResource.php:723 | `intval` of an integer string stays within the 64-bit PHP bounds, is the value itself inside them, and stops at the nearest bound outside them: PHP_INT_MAX above, PHP_INT_MIN below |
| Converters.ConvertDate | app/Filament/Resources/PdfTextConverterResource.php:673-698 | "" and "0" give null; every date returned has the ISO shape `\d{4}-\d{2}-\d{2}` |
| Converters.ConvertDateIsoUnchanged | app/Filament/Resources/PdfTextConverterResource.php:680-683 | a date already in the ISO shape is returned unchanged |
| Converters.ConvertDateIdempotent | app/Filament/Resources/PdfTextConverterResource.php:673-698 | converting a converted date again gives the same date |
| Converters.ConvertDateBrazilian | app/Filament/Resources/PdfTextConverterResource.php:686-691 | d/m/yyyy with one- or two-digit day and month becomes yyyy-mm-dd, zero-padded, with no range check |
| Converters.NumberOf | app/Filament/Resources/PdfTextConverterResource.php:713 | a value comes back exactly when the cleaned text is numeric |
| Converters.ConvertDecimal | app/Filament/Resources/PdfTextConverterResource.php:700-714 | "" and "0" give null |
| Converters.ConvertDecimalBrazilian | app/Filament/Resources/PdfTextConverterResource.php:700-714 | a Brazilian amount `[-]a,b` has the dots of `a` dropped as thousands separators and the comma read as the decimal point ("-1.234,56" is -1234.56) |
| Converters.ConvertDecimalDotIsDecimalPoint | app/Filament/Resources/PdfTextConverterResource.php:708-713 | without a comma the dot stays the decimal point, so "1.234" is read as 1.234 |
| Converters.ConvertValue | app/Filament/Resources/PdfUploadResource.php:768-784 | "" and "0" give null |
| Converters.ConvertValueAgreesWithoutSpaces | app/Filament/Resources/PdfUploadResource.php:768-784 | on text without blanks `converterValor` and `converterDecimal` agree |
| Converters.ConvertValueOrderMatters | app/Filament/Resources/PdfUploadResource.php:774 | the two money converters delete "R$" and blanks in opposite orders: "R $5" is null for one and 5 for the other |
| Converters.ConvertInteger | app/Filament/Resources/PdfUploadResource.php:786-794 | "" and "0" give null; a result lies within the 64-bit PHP bounds |
| Converters.ConvertIntegerDropsDots | app/Filament/Resources/PdfTextConverterResource.php:716-724 | every dot of digits-and-dots is a thousands separator ("1.234.567" is 1234567), saturated at the 64-bit bounds |
| Converters.ConvertPercent | app/Filament/Resources/PdfUploadResource.php:796-809 | "" and "0" give null |
| Converters.ConvertPercentValue | app/Filament/Resources/PdfUploadResource.php:796-809 | a Brazilian percentage "x,y%" is read as x.y, so "12,5%" gives 12.5 |
| Converters.ConvertPercentWhole | app/Filament/Resources/PdfUploadResource.php:796-809 | a whole percentage "x%" is read as the integer x |
| Converters.ConvertPercentDotAndComma | app/Filament/Resources/PdfUploadResource.php:803-808 | the comma becomes a point while the dots stay, so a percentage holding both ("1.234,5%") gives null |
| ReportLines.NoiseIgnoresTrim | app/Filament/Resources/PdfTextConverterResource.php:396-416 | `isLinhaIgnoravel` trims by itself: trimming first changes nothing |
| ReportLines.TotalsLineIsNoise | app/Filament/Resources/PdfTextConverterResource.php:406 | a line holding "TOTAIS:" at the start of a word is noise, whatever surrounds it |
| ReportLines.CompleteHasNumChar | app/Filament/Resources/PdfTextConverterResource.php:418-425 | a line `isLinhaCompleta` accepts has a number character, so the customer boundary always exists |
| ReportLines.DetectHeader | app/Filament/Resources/PdfTextConverterResource.php:427-456 | the loop says "header" exactly when at least 8 of the 11 labels occur (ASCII case ignored) in the collapsed line, and leaves the mapping `MappingAfter` describes |
| ReportLines.MappingAfterSpec | app/Filament/Resources/PdfTextConverterResource.php:446-452 | the mapping gains only label keys; each found label's key holds that label; other keys keep their value, also when the line is no header |
| ReportLines.FullHeaderDetected | app/Filament/Resources/PdfTextConverterResource.php:432-455 | a line holding all eleven labels is a header |
| ReportLines.MissesBlockHeader | app/Filament/Resources/PdfTextConverterResource.php:432-455 | a line missing four of the labels is no header, whatever else it holds |
| ReportLines.ValidNameIsValidCustomer | app/Filament/Resources/PdfTextConverterResource.php:634-671 | a name `isValidClientName` accepts passes `validarDadosCliente` once trimmed |
| ReportLines.DataRowShape | app/Filament/Resources/PdfTextConverterResource.php:458-493 | a row `isLinhaValidaPlanilha` accepts matches none of the rejecting patterns, holds a digit, is no dash line, and splits into three or more whitespace-free parts |
| ReportParser.FindFallbackCustomer | app/Filament/Resources/PdfTextConverterResource.php:526-532 | the loop returns the first part that, trimmed, is a valid customer name |
| ReportParser.FindCustomer | app/Filament/Resources/PdfTextConverterResource.php:504-533 | the customer is the collapsed text before the first date or number, or else the fallback search |
| ReportParser.StartsInDate | app/Filament/Resources/PdfTextConverterResource.php:588-594 | the inner loop with its `break` says exactly whether the position lies in one of the date ranges |
| ReportParser.CollectRanges | app/Filament/Resources/PdfTextConverterResource.php:565-570 | the ranges loop gives each date's start and end, in order |
| ReportParser.CollectValues | app/Filament/Resources/PdfTextConverterResource.php:581-606 | the numbers loop keeps, in order, the converted signed numbers that start neither in a date nor in the first percentage |
| ReportParser.KeepNumber | app/Filament/Resources/PdfTextConverterResource.php:584-605 | one turn of the numbers loop extends the kept values by exactly that number's contribution |
| ReportParser.Negatives | app/Filament/Resources/PdfTextConverterResource.php:609 | the filtered list holds only negative values and is no longer than the input |
| ReportParser.NoNegativesMeansNonNegative | app/Filament/Resources/PdfTextConverterResource.php:609-613 | when the filter finds no negative value, every value is non-negative |
| ReportParser.ApplyTable | app/Filament/Resources/PdfTextConverterResource.php:609-629 | the first two negatives are returns and their cost, as absolute values; positions 0 and 3 to 10 fill their fields unless already set; position 6 is truncated to the quantity; customer and dates untouched |
| ReportParser.ParseLine | app/Filament/Resources/PdfTextConverterResource.php:495-632 | the step-by-step parser computes exactly `ParseRecord` |
| ReportParser.ClientEndIsFirstNumChar | app/Filament/Resources/PdfTextConverterResource.php:504-515 | the customer boundary is the first `[\d.,]` character, because a date starts with a digit |
| ReportParser.CustomerHasNoNumChar | app/Filament/Resources/PdfTextConverterResource.php:517-537 | a record's customer is never empty and never holds a digit, '.' or ',' |
| ReportParser.TotalDevolucaoNonNegative | app/Filament/Resources/PdfTextConverterResource.php:610-628 | returns are never stored as a negative amount |
| ReportParser.CustoDevMayBeNegative | app/Filament/Resources/PdfTextConverterResource.php:614-621 | the cost of returns is not protected the same way: with one negative value, position 2 may put it there as is |
| ReportParser.CompleteRowCustomer | app/Filament/Resources/PdfTextConverterResource.php:517-519 | a complete row never takes the fallback: its customer is the collapsed text before its first number |
| ReportExtract.FeedLine | app/Filament/Resources/PdfTextConverterResource.php:370-381 | a complete candidate is parsed, appended when valid, and the buffer emptied; otherwise the candidate becomes the buffer |
| ReportExtract.Turn | app/Filament/Resources/PdfTextConverterResource.php:351-382 | one turn of the loop moves the driver state exactly as `Step` says |
| ReportExtract.ExtractSalesRecords | app/Filament/Resources/PdfTextConverterResource.php:340-394 | the driver computes exactly `Extract` of the text |
| ReportExtract.FlushBuffer | app/Filament/Resources/PdfTextConverterResource.php:384-391 | the trailing buffer is parsed only when it is a complete row |
| ReportExtract.ExtractedRecordsAreGood | app/Filament/Resources/PdfTextConverterResource.php:340-394 | every record returned passes `validarDadosCliente` and has a customer free of digits, '.' and ',' |
| ReportExtract.RunAppends | app/Filament/Resources/PdfTextConverterResource.php:351-382 | records are only appended, at most one per line, so earlier records keep their place |
| ReportExtract.HeaderFoundStays | app/Filament/Resources/PdfTextConverterResource.php:358-362 | once found the header stays found and the mapping no longer changes |
| ReportExtract.HeaderLineConsumed | app/Filament/Resources/PdfTextConverterResource.php:358-362 | the header line is recognised before the noise filter and never enters the buffer nor yields a record |
| ReportExtract.NoiseLineDropped | app/Filament/Resources/PdfTextConverterResource.php:365-367 | a noise line changes neither the buffer nor the records |
| ReportExtract.SingleRowRecord | app/Filament/Resources/PdfTextConverterResource.php:370-377 | a complete row alone in the text becomes exactly its own record |
| ReportExtract.WrappedRowJoined | app/Filament/Resources/PdfTextConverterResource.php:370-380 | a row wrapped over two lines is joined with one blank and parsed as a whole |
| ReportExtract.NextLineCompletes | app/Filament/Resources/PdfTextConverterResource.php:370-378 | a data line completing the buffered candidate empties the buffer and yields the parse of the joined text |
| ReportExtract.FirstLineHeld | app/Filament/Resources/PdfTextConverterResource.php:379-381 | an incomplete first data line only fills the buffer |
| ReportExtract.FlushEmpty | app/Filament/Resources/PdfTextConverterResource.php:385 | an empty buffer adds nothing at the end |
| TextCleanup.Filter | app/Filament/Resources/PdfTextConverterResource.php:756-803 | `array_filter` keeps only lines the callback accepts, each from the input, no more of them than there were |
| TextCleanup.BlankLinesKept | app/Filament/Resources/PdfTextConverterResource.php:757-760 | blank lines are always kept |
| TextCleanup.FilterConcat | app/Filament/Resources/PdfTextConverterResource.php:756-803 | the filter works line by line, so survivors keep their order |
| TextCleanup.FilterKeepsAll | app/Filament/Resources/PdfTextConverterResource.php:756-803 | every line the callback accepts survives |
| TextCleanup.FilterIdempotent | app/Filament/Resources/PdfTextConverterResource.php:756-803 | filtering twice drops nothing more |
| TextCleanup.CleanedLines | app/Filament/Resources/PdfTextConverterResource.php:740-806 | splitting the cleaned text gives back exactly the surviving lines |
| TextCleanup.RefactorIdempotent | app/Filament/Resources/PdfTextConverterResource.php:729-816 | cleaning a cleaned text changes nothing and reports "nothing to remove" |
| TextCleanup.MarkedLineDropped | app/Filament/Resources/PdfTextConverterResource.php:761-769 | a pagination line or a lone "Custo Dev." line is dropped |
| TextCleanup.PageCountExample | app/Filament/Resources/PdfTextConverterResource.php:762 | example of the rule `MarkedLineDropped` states for every line: "Página 2 de 7" is a pagination line |
| TextCleanup.CustoDevExample | app/Filament/Resources/PdfTextConverterResource.php:767 | example of the rule `MarkedLineDropped` states for every line: "Custo Dev." is a lone cost-of-returns line |
| UploadHeader.FindLabelFirst | app/Filament/Resources/PdfUploadResource.php:512-515 | the search returns the first offset where a pattern matches, and nothing only when it never does |
| UploadHeader.InsertByOffset | app/Filament/Resources/PdfUploadResource.php:520 | inserting keeps the list sorted by offset, and the result is the list plus the element |
| UploadHeader.SortByOffset | app/Filament/Resources/PdfUploadResource.php:520 | `asort` gives a permutation of the hits sorted by offset |
| UploadHeader.NumberColumns | app/Filament/Resources/PdfUploadResource.php:521-527 | the loop numbers the sorted columns 0, 1, … |
| UploadHeader.DetectUploadHeader | app/Filament/Resources/PdfUploadResource.php:487-533 | "header" exactly when six or more patterns match the lower-cased line; then the mapping is rebuilt, otherwise left alone |
| UploadHeader.HeaderColumnsInLineOrder | app/Filament/Resources/PdfUploadResource.php:511-527 | after a header the columns are numbered in line order; each numbered column occurs there and every column that occurs gets a number |
| UploadHeader.AccentedMedioMissed | app/Filament/Resources/PdfUploadResource.php:498 | without the `u` flag the class `[eé]` cannot match the two bytes of "é", so "médio" is missed |
| UploadRows.TextRowIsUploadRow | app/Filament/Resources/PdfUploadResource.php:680-705 | every row the text-report importer accepts is accepted by the upload importer |
| UploadRows.UploadRowShape | app/Filament/Resources/PdfUploadResource.php:680-705 | an accepted row never starts with "total", is no dash line, and has three or more whitespace-free parts |
| UploadRows.SennacarCustomerShape | app/Filament/Resources/PdfUploadResource.php:707-753 | the one-field parser's customer is the first part: from the line, no whitespace, three or more bytes, not numeric, not a stop word |
| UploadRows.StopWordsCover | app/Filament/Resources/PdfUploadResource.php:654-661 | the upload stop words include the one-field parser's, except its capitalised entry, which can never match |
| UploadParser.FindUploadCustomer | app/Filament/Resources/PdfUploadResource.php:552-566 | the customer is the first field `isValidClientName` accepts once trimmed, with its index |
| UploadParser.StoreField | app/Filament/Resources/PdfUploadResource.php:595-640 | one field is a filler, a date for the first free date slot, a percentage or an amount sorted into its slot |
| UploadParser.FillUploadRecord | app/Filament/Resources/PdfUploadResource.php:588-641 | the value loop applies every field but the customer's, in order |
| UploadParser.ParseUploadLine | app/Filament/Resources/PdfUploadResource.php:535-644 | the step-by-step parser computes exactly `UploadParse` |
| UploadParser.ClassifyKeepsGood | app/Filament/Resources/PdfUploadResource.php:614-639 | sorting a number into its slot keeps the record's shape and never overwrites a slot already set |
| UploadParser.FillKeepsGood | app/Filament/Resources/PdfUploadResource.php:588-641 | the value loop keeps the record's shape and never overwrites a first-come slot |
| UploadParser.UploadParseGood | app/Filament/Resources/PdfUploadResource.php:573-643 | a parsed record has positive refunds, quantity and average below 1000, large amounts at least 1000 and filled in order, a last sale only after a first |
| UploadParser.UploadParseCustomer | app/Filament/Resources/PdfUploadResource.php:552-570 | the customer is a field `isValidClientName` accepts, and no earlier field is accepted |
| UploadParser.ShortLineRejected | app/Filament/Resources/PdfUploadResource.php:541-550 | a line of fewer than three fields gives null |
| UploadParser.ExtractUploadRows | app/Filament/Resources/PdfUploadResource.php:442-485 | the driver computes exactly `UploadExtract`, stopping at the first crash |
| UploadParser.UploadExtractYieldsNothing | app/Filament/Resources/PdfUploadResource.php:472-479 | the driver never returns a record: the list comes back empty or the run crashes |
| UploadParser.NoHeaderNoRows | app/Filament/Resources/PdfUploadResource.php:465-472 | a text without a header line gives an empty list and no crash |
| UploadParser.MappingFixedAfterHeader | app/Filament/Resources/PdfUploadResource.php:465-469 | once the header is found, the mapping stays as the header left it |
| UploadParser.HeaderThenRowCrashes | app/Filament/Resources/PdfUploadResource.php:465-476 | a header followed by a valid row that parses ends the import with the missing-method crash |
| UploadParser.ExtractUploadRowsFixed | app/Filament/Resources/PdfUploadResource.php:453-481 | the corrected driver computes exactly `UploadExtractFixed` |
| UploadParser.FixedRowKept | app/Filament/Resources/PdfUploadResource.php:472-479 | with the check in place, a row is kept exactly when it follows the header, is valid, and parses; kept rows have the parser's shape and a valid customer |
| UploadParser.FixedRecordsGood | app/Filament/Resources/PdfUploadResource.php:453-481 | every record the corrected driver keeps has the parser's shape and a customer both checks accept |
| UploadParser.CrashIffRecord | app/Filament/Resources/PdfUploadResource.php:453-481 | the driver as written crashes exactly when the corrected one would keep a record |
| UploadParser.UploadExtractLosesRecords | app/Filament/Resources/PdfUploadResource.php:442-485 | the driver returns normally exactly when the corrected one finds nothing |
| UploadParser.HeaderThenRowKept | app/Filament/Resources/PdfUploadResource.php:465-479 | with the check in place, a header followed by a valid row keeps that row first |
| ProcessCommand.MoneyValue | app/Console/Commands/ProcessarPdfCommand.php:160-164 | "R$ x,y" is read as x.y |
| ProcessCommand.MoneyThousandsMisread | app/Console/Commands/ProcessarPdfCommand.php:160-164 | "R$ a.b,c" is read as a.b: the thousands dot stays and the comma becomes a second point that `floatval` stops at |
| ProcessCommand.PercentValue | app/Console/Commands/ProcessarPdfCommand.php:179-182 | "x,y%" is read as x.y |
| ProcessCommand.Outcome | app/Console/Commands/ProcessarPdfCommand.php:137-185 | no customer gives null; with one, a second amount crashes on `converterInteiro`, no amount and no percentage fail on the read of the unwritten `$dados`, and otherwise only the average sale and the percentage are written, never the customer |
| ProcessCommand.CustomerOf | app/Console/Commands/ProcessarPdfCommand.php:124-135 | the three deletion loops and the trim leave exactly `CommandCustomer` |
| ProcessCommand.ValuesOf | app/Console/Commands/ProcessarPdfCommand.php:159-164 | the loop reads every amount match, in order |
| ProcessCommand.StoreValues | app/Console/Commands/ProcessarPdfCommand.php:166-185 | the writes after the customer check, the missing-method crash and the read of `$dados` when nothing was written give exactly `Outcome` |
| ProcessCommand.ParseCommandLine | app/Console/Commands/ProcessarPdfCommand.php:106-186 | the step-by-step parser computes exactly `CommandParse` |
| ProcessCommand.CollectLines | app/Console/Commands/ProcessarPdfCommand.php:85-101 | the loop collects the kept rows in order, or stops at the first crash |
| ProcessCommand.ExtractCommandRows | app/Console/Commands/ProcessarPdfCommand.php:80-104 | the extractor computes exactly `CommandExtract` |
| ProcessCommand.CommandExtractsNothing | app/Console/Commands/ProcessarPdfCommand.php:96-100 | the command never keeps a row: it crashes or returns an empty list |
| ProcessCommand.DateLineCrashes | app/Console/Commands/ProcessarPdfCommand.php:112-168 | a line with a customer and a date crashes, since the month and year of the date are two amounts |
| ProcessCommand.NoNumbersNoRow | app/Console/Commands/ProcessarPdfCommand.php:137-185 | a line without digits, points or commas has the whole line as its customer; it gives null when that customer is too short and otherwise fails on the read of the unwritten `$dados` ("Sennacar Comercio Ltda" does) |
| ProcessCommand.FixedCommandParse | app/Console/Commands/ProcessarPdfCommand.php:135-156 | the corrected parser gives a record exactly when the customer passes the check, and the record holds that customer |
| ProcessCommand.CrashIffQuantity | app/Console/Commands/ProcessarPdfCommand.php:166-185 | the command as written crashes on a line on `converterInteiro` exactly when the corrected parser would store a quantity, on the unwritten `$dados` exactly when the corrected record would hold no value, and on nothing else |
| ProcessCommand.WrittenValuesAgree | app/Console/Commands/ProcessarPdfCommand.php:166-183 | where the command as written returns an array, its entries are those of the corrected record, which has no quantity and holds a value |
| ProcessCommand.DateLineRecorded | app/Console/Commands/ProcessarPdfCommand.php:142-168 | a data line with a customer and a date gives a corrected record with its customer, first date and a quantity |
| ProcessCommand.FixedRowsHaveCustomers | app/Console/Commands/ProcessarPdfCommand.php:96-100 | every corrected record kept has a customer PHP does not take as empty, of at least two bytes |
| ProcessCommand.LineFailsIffQuantity | app/Console/Commands/ProcessarPdfCommand.php:86-100 | on one line, the command as written fails exactly when the corrected line adds a record with a quantity or with no value |
| ProcessCommand.CommandFailsIffQuantity | app/Console/Commands/ProcessarPdfCommand.php:80-104 | on a whole text, the command fails exactly when a corrected record would hold a quantity or no value at all |
| ProcessCommand.FixedLineStep | app/Console/Commands/ProcessarPdfCommand.php:86-100 | the corrected loop body trims, skips, parses and keeps exactly `FixedLineRows` |
| ProcessCommand.ExtractCommandRowsFixed | app/Console/Commands/ProcessarPdfCommand.php:80-104 | the corrected extractor computes exactly `FixedCommandExtract` |
| CreateUpload.FillCreate | app/Filament/Resources/PdfUploadResource/Pages/CreatePdfUpload.php:129-167 | the record holds the customer given, and the returns, costs and profits stay null |
| CreateUpload.CreateParse | app/Filament/Resources/PdfUploadResource/Pages/CreatePdfUpload.php:110-170 | a record exactly when the collapsed line has three or more space-separated parts; its customer holds no space |
| CreateUpload.ParseCreateLine | app/Filament/Resources/PdfUploadResource/Pages/CreatePdfUpload.php:110-170 | the step-by-step parser computes exactly `CreateParse` |
| CreateUpload.CreateLine | app/Filament/Resources/PdfUploadResource/Pages/CreatePdfUpload.php:79-106 | one line creates at most one record, with a customer free of spaces that PHP does not take as empty |
| CreateUpload.CreateFromLine | app/Filament/Resources/PdfUploadResource/Pages/CreatePdfUpload.php:79-106 | the loop body creates exactly `CreateLine` |
| CreateUpload.ExtractCreateRows | app/Filament/Resources/PdfUploadResource/Pages/CreatePdfUpload.php:73-108 | the extractor creates exactly the records of each line, in line order |
| CreateUpload.CustomerIsFirstWord | app/Filament/Resources/PdfUploadResource/Pages/CreatePdfUpload.php:116-144 | the customer is the collapsed line up to its first space |
| CreateUpload.CreatedRowsHaveCustomers | app/Filament/Resources/PdfUploadResource/Pages/CreatePdfUpload.php:91-105 | every record created has a customer free of spaces that PHP does not take as empty |
| CreateUpload.DateReadAsAmounts | app/Filament/Resources/PdfUploadResource/Pages/CreatePdfUpload.php:155-165 | when the first number starts a date, its day becomes the average sale and its month the quantity |
| FileModels.StatusLabel | app/Models/PdfTextConverter.php:70-79 | each of the four statuses has its label, and any other status is "Desconhecido" |
| FileModels.StatusColor | app/Models/PdfTextConverter.php:84-93 | each of the four statuses has its colour, and any other status is "gray" |
| FileModels.StatusLabelsDistinct | app/Models/PdfTextConverter.php:70-79 | two statuses with the same label that is not "Desconhecido" are the same status |
| FileModels.StatusColorMatchesLabel | app/Models/PdfTextConverter.php:70-93 | label and colour agree on which statuses are known, and give the same partition of statuses |
| FileModels.FormatFileSize | app/Models/PdfTextConverter.php:55-65 | the loop divides by 1024 while the size is above 1024 and a larger unit remains, and returns the value and unit of the one index the rule allows |
| FileModels.ChosenUnitUnique | app/Models/PdfTextConverter.php:60-62 | the stopping rule picks one unit for each size |
| FileModels.ScaledValueRange | app/Models/PdfTextConverter.php:60-64 | above "B" the value printed is above 1, and below "GB" it is at most 1024 |
| FileModels.KilobyteStaysBytes | app/Models/PdfTextConverter.php:60 | exactly 1024 bytes stays in "B" |
| FileModels.UploadFileSize | app/Models/PdfUpload.php:50-63 | below 1024 the exact byte count; otherwise a value of at least 1 in KB, MB or GB, below 1024 unless GB |
| FileModels.UploadThresholds | app/Models/PdfUpload.php:54-58 | the upload thresholds are the powers of 1024 |
| FileModels.KilobyteDisagreement | app/Models/PdfTextConverter.php:60 | on 1024 bytes the converter says "B" and the upload says "KB" |
| FileModels.FormatFileSizeAtLeast | app/Models/PdfTextConverter.php:55-65 | the loop with `>=` in place of `>` returns the value and unit the `>=` rule picks |
| FileModels.AtLeastAgreesWithUpload | app/Models/PdfUpload.php:50-63 | with `>=` the converter picks the unit and value the upload prints, for every size |
| FileModels.KilobyteMovesUp | app/Models/PdfTextConverter.php:60 | with `>=`, 1024 bytes becomes 1 KB |

## Left out

- Text.IsWordChar, Text.IsSpace: `\w`, `\b` and `\s` are ASCII here. Under the `u` flag of the patterns at app/Filament/Resources/PdfTextConverterResource.php:404-406 and 762-787, PCRE also counts accented letters as word characters and a few more characters as spaces. ReportLines.IsNoise (`\bTOTAIS`) and TextCleanup.KeepLine (`\bDev\.`, `\s+`) inherit the ASCII reading, so they can differ on lines where an accented letter touches one of those words.
- Text.Lower, Text.HasAtCI: case folding is ASCII only. `strtolower` and the `i` flag without `u` fold only ASCII letters. The patterns with `/iu` would also fold accented capitals ("PÁGINA"), and the model does not.
- Numeric.IsNumeric: `is_numeric` is abstracted to an optional sign and then digits with at most one '.', at least one of them a digit. Exponents ("1e5") and leading or trailing whitespace that `trim` leaves (a form feed) are not modelled. On text made only of digits, dots, commas and signs, which is what the amount converters receive after cleaning, the two agree.
- Converters.NumberOf, Converters.FloatVal: values are exact reals, not IEEE doubles. Rounding of `floatval` and of the arithmetic on amounts is not modelled, and neither is the comparison `$numericValue == intval($numericValue)` on values that are not exactly representable.
- Numeric.Trunc: `(int)` and `intval` of a float outside the 64-bit range are not modelled. PHP's result there depends on the platform; the model truncates the exact value.
- UploadParser.ConvertBrDate, ProcessCommand.DateAt, CreateUpload.FillCreate: `DateTime::createFromFormat('d/m/Y', ...)` is the parameter `brDate`. Its overflow rules ("31/02/2024" rolls into March) belong to the library.
- UploadParser.UploadRun, ProcessCommand.Outcome: a call to an undefined method, and the command's read of a variable nothing wrote (a warning that Laravel, which runs the command, turns into an `ErrorException`), are the value `Crash`. The run that meets it stops there. What the caller then does is not modelled: the Laravel command's `catch (\Exception $e)` at app/Console/Commands/ProcessarPdfCommand.php:75 reports it, and either way no record is created.
- The PDF parsing itself, reading the file from storage, `\Log` calls, Filament notifications, saving the cleaned text, creating `VendaCliente` rows, the CSV export and the sorted save action: these are I/O around the parsers. The model works on the extracted text and returns the records that would be created.
- UploadParser.UploadParse: the column mapping is passed to the parser but never read there, so the model does not carry it into the parse.
- FileModels.FormatFileSize, FileModels.UploadFileSize: `round($bytes, 2)` and `number_format(..., 2)` are not modelled. The model returns the exact value and the unit. Only an exact byte count below 1024 is rendered as text.
- Text.Utf8Length: `strlen` counts the UTF-8 bytes of the characters. Invalid UTF-8 input is not modelled.
- ProcessCommand.FixedCommandParse: reading the quantity as the truncated second amount is an interpretation. The call it replaces does not exist, and `converterInteiro` elsewhere in the application takes a string, not the float passed here.
- CreateUpload.ExtractCreateRows: nothing calls this extractor (`afterCreate` at app/Filament/Resources/PdfUploadResource/Pages/CreatePdfUpload.php:40-43 only stores the text). It is modelled as written.
- UploadRows.SennacarCustomer: nothing calls `parsearLinhaRelatorioSennacar` either. Only its customer is modelled, since every other field it returns is null.

## Findings

| source | as written | input that shows it | evidently intended | confidence | as-written member | corrected member |
|---|---|---|---|---|---|---|
| app/Filament/Resources/PdfUploadResource.php:476 | the driver calls `self::validarDadosCliente`, which `PdfUploadResource` does not define, so the first valid row after the header ends the import | a header line followed by any valid row that parses, e.g. a report's first data row | check the customer as the text-report importer's `validarDadosCliente` does and keep the row | high (not executed) | UploadParser.HeaderThenRowCrashes, UploadParser.UploadExtractYieldsNothing | UploadParser.ExtractUploadRowsFixed, UploadParser.FixedRecordsGood, UploadParser.CrashIffRecord, UploadParser.HeaderThenRowKept |
| app/Console/Commands/ProcessarPdfCommand.php:167-176 | values are written into `$dados`, never declared, instead of `$dadosCliente`, and line 168 calls `$this->converterInteiro`, which the command does not define; so the customer is never returned, any line with two amounts throws, and a customer line with no amount returns `$dados` unwritten, which throws too | any data line with a customer and a date, e.g. "ACME 01/02/2024 R$ 10,00" (the month and year are two amounts); "Sennacar Comercio Ltda" for the unwritten read | fill `$dadosCliente`, return it, and read the quantity as an integer | high (not executed) | ProcessCommand.DateLineCrashes, ProcessCommand.NoNumbersNoRow, ProcessCommand.CommandExtractsNothing | ProcessCommand.FixedCommandParse, ProcessCommand.DateLineRecorded, ProcessCommand.CommandFailsIffQuantity, ProcessCommand.ExtractCommandRowsFixed |
| app/Models/PdfTextConverter.php:60 | the loop moves to the next unit only above 1024, so 1024 bytes prints "1024 B" | a file of 1024 bytes | move up at 1024, as `PdfUpload` does with `>=`, giving "1 KB" | low (not executed) | FileModels.KilobyteDisagreement | FileModels.FormatFileSizeAtLeast, FileModels.AtLeastAgreesWithUpload, FileModels.KilobyteMovesUp |
