# web-flow: packing, bin statistics, crawling and workflow tagging, in Dafny

A model of the core of the web-flow repository: the services of the `package_optimizing`
workflow and the readers of the `crawl-best-carton` workflow, together with the workflow tagger.

- **Packing** (bin_packaging_service.py, module `BinPackaging`).
  - Turns the catalog of carton sizes into candidate bins and an order's products into
    items, in centimetres and grams.
  - For each order, picks the smallest-volume bin into which the packer fits every item.
  - Reports one summary per order, in batch mode (`Perform`) and in streaming mode
    (`PerformStream`).
- **Usage statistics** (bin_usage_statistics_service.py, `BinUsageStatistics`).
  - Indexes the orders by transaction id.
  - Counts how often each bin url is used and collects one detail per use.
  - Enriches each bin with its sorted details, its unique orders and its totals.
  - Sorts the bins by usage, most used first.
- **CSV export** (bin_usage_csv_export_service.py, `BinUsageCsvExport`).
  - Joins the statistics with the catalog by url.
  - Renders numbers as `"{:.6f}"` without trailing zeros.
  - Writes fifteen columns per bin under a fixed header.
- **Discord upload** (discord_file_upload_service.py, `DiscordFileUpload`, with `Utf8`).
  - Builds the bytes of the multipart/form-data body: a text part for the message, a file
    part for the payload, and the closing delimiter.
- **Box url tracker** (box_url_tracker.py, `BoxUrlTracker`).
  - Collects, from the anchors of a page, the distinct box urls, normalised to their path.
    The test is the one the code applies, which is meant to accept `/cardboard/box/<digits>.html`
    but also accepts more than one `.html` at the end (see "Findings").
  - Remembers every url it has returned, in a set it can list sorted, query and clear.
- **Site map reader** (site_map_parser.py, `SiteMapParser`).
  - Returns the anchor hrefs that lie under `/category/`.
- **Product page reader** (product_parser.py, `ProductParser` and `ProductText`).
  - Runs a `dt`/`dd` state machine over the page.
  - Reads the inner and outer dimensions (`a×b×c`, millimetres over 100 turned into
    centimetres), the volume (`L` or `cm³`) and the weight (`g` or `kg`).
  - Builds the product record, whose outer volume is the product of the outer dimensions.
- **Workflow tagger** (tools/tag_workflows.py, `TagWorkflows`).
  - Gives every `*Pipeline` class of a workflow module a stable id.
  - Keeps existing ids, skips modules already tagged, draws fresh ids for new classes, and
    merges the result into the existing mapping.

Shared modules:
- `PyValue`: Python's JSON-shaped values and their coercions.
- `PyStrings`: `split`, `replace`, `strip` and their relatives.
- `Seqs`: sequence helpers.
- `StableSort`: Python's stable `sort`.
- `HtmlEvents`: the events `HTMLParser` hands to its subclasses.
- `Utf8`: the UTF-8 encoding.
- `Wrappers`: `Option`, `Result`, and the Python exceptions.

Calls into code outside the core become parameters:
- the py3dbp packer: `pack`, the number of items it fits into a bin, `None` when it raises;
- `uuid.uuid4`: `uuid`, the k-th id drawn;
- the random boundary token of the multipart body: `token`;
- `urlparse(...).path`: `urlPath`;
- the files the tagger finds and the result of importing each: `SourceFile`.

Methods that loop in the source are methods with loops here. Each is proved equal to a
specification function, and the specification function's properties are proved as lemmas.
Source paths below are relative to the repository root.

## Model

| member | source | states |
|---|---|---|
| BinPackaging.BinFromSize | workspace/src/workflows/package_optimizing/services/bin_packaging_service.py:134-155 | a catalog record becomes a bin exactly when it is a dict whose length, width and height all read as positive floats; the bin carries the `size_cm` name (or `bin`), depth = length, the 100000 g limit and the url |
| BinPackaging.BuildBinsFromSizes | workspace/src/workflows/package_optimizing/services/bin_packaging_service.py:120-156 | the loop keeps, in catalog order, exactly the bins of the records that convert |
| BinPackaging.BinsFromSizesSpec | workspace/src/workflows/package_optimizing/services/bin_packaging_service.py:142-155 | a bin is a candidate iff some record converts to it, and every candidate has positive sides, positive volume and the default weight limit |
| BinPackaging.BinPositive | workspace/src/workflows/package_optimizing/services/bin_packaging_service.py:148-151 | a converted bin has positive sides and volume |
| BinPackaging.ProductItemsSpec | workspace/src/workflows/package_optimizing/services/bin_packaging_service.py:176-217 | a product yields items iff it is usable; it then yields max(1, quantity) copies of the same item, named by title, id or `item`, with lengths scaled by the length unit (mm, m) and the weight by the weight unit (kg, mg) |
| BinPackaging.ProductItemsPositive | workspace/src/workflows/package_optimizing/services/bin_packaging_service.py:198-211 | every item has positive sides and a non-negative weight after unit conversion |
| BinPackaging.BuildItemsFromOrder | workspace/src/workflows/package_optimizing/services/bin_packaging_service.py:158-219 | the loop over the products computes the items of the order, a `TypeError` where iterating `products` raises |
| BinPackaging.ItemsOfProductsMembers | workspace/src/workflows/package_optimizing/services/bin_packaging_service.py:176-217 | an item belongs to the order iff some product yields it |
| BinPackaging.AppendCopies | workspace/src/workflows/package_optimizing/services/bin_packaging_service.py:213-215 | the copy loop appends exactly `n` copies of the item |
| BinPackaging.FindSingleBinForItems | workspace/src/workflows/package_optimizing/services/bin_packaging_service.py:246-266 | the loop over the volume-sorted candidates returns the bin the selection specification picks |
| BinPackaging.SelectBinSpec | workspace/src/workflows/package_optimizing/services/bin_packaging_service.py:246-266 | a bin is found iff there are items and some candidate fits them all; the bin found is a candidate that fits them all |
| BinPackaging.SelectBinMinimal | workspace/src/workflows/package_optimizing/services/bin_packaging_service.py:250-265 | no candidate of smaller volume than the bin found fits all the items |
| BinPackaging.SelectBinFirstOfItsVolume | workspace/src/workflows/package_optimizing/services/bin_packaging_service.py:250-265 | among fitting candidates of the same volume, the bin found comes first in catalog order (the sort is stable) |
| BinPackaging.FindSingleBinThatFitsAllItems | workspace/src/workflows/package_optimizing/services/bin_packaging_service.py:221-244 | `None` for an index out of range or an order without items, else the selected bin |
| BinPackaging.SummaryForSingle | workspace/src/workflows/package_optimizing/services/bin_packaging_service.py:303-332 | the summary exists iff the items can be built; it carries the given index, the transaction id and the number of products |
| BinPackaging.SummaryBinSpec | workspace/src/workflows/package_optimizing/services/bin_packaging_service.py:310-324 | the summary reports a bin iff one is selected, and then reports its depth, width, height, their product as volume, and the number of items |
| BinPackaging.SummaryForOrder | workspace/src/workflows/package_optimizing/services/bin_packaging_service.py:268-301 | an index out of range raises `ValueError` |
| BinPackaging.SummaryForOrderIsSingle | workspace/src/workflows/package_optimizing/services/bin_packaging_service.py:268-301 | for an index in range, the order summary is the single-order summary of that order |
| BinPackaging.Perform | workspace/src/workflows/package_optimizing/services/bin_packaging_service.py:15-60 | total orders is the list length; processed is the clamped `max_orders` limit; the summaries are those of the first `limit` orders that do not raise; total summaries is their count |
| BinPackaging.BatchSummariesSpec | workspace/src/workflows/package_optimizing/services/bin_packaging_service.py:39-49 | at most `limit` summaries, in increasing order index, each equal to the summary of its index, and every index whose summary succeeds is present |
| BinPackaging.SummaryIndex | workspace/src/workflows/package_optimizing/services/bin_packaging_service.py:295-297 | a successful summary carries the index it was asked for |
| BinPackaging.PerformStream | workspace/src/workflows/package_optimizing/services/bin_packaging_service.py:62-116 | the stream stops after `max(0, int(max_orders))` orders, or at the end; total and processed are the count consumed; the summaries are those of the consumed orders that do not raise |
| BinPackaging.StreamAgreesWithBatch | workspace/src/workflows/package_optimizing/services/bin_packaging_service.py:62-116 | on a list of orders, streaming consumes as many orders as batch mode processes and produces the same summaries |
| BinUsageStatistics.CreateOrderLookup | workspace/src/workflows/package_optimizing/services/bin_usage_statistics_service.py:28-44 | the loop computes the lookup specification, including its error cases |
| BinUsageStatistics.LookupSpec | workspace/src/workflows/package_optimizing/services/bin_usage_statistics_service.py:30-43 | a transaction id is a key iff some dict order carries it truthily, and it maps to the info of the last such order |
| BinUsageStatistics.LookupKeys | workspace/src/workflows/package_optimizing/services/bin_usage_statistics_service.py:33-35 | the keys are exactly the truthy transaction ids of dict orders |
| BinUsageStatistics.LookupLatest | workspace/src/workflows/package_optimizing/services/bin_usage_statistics_service.py:35-43 | a later order with the same id replaces an earlier one |
| BinUsageStatistics.LookupErrorSticks | workspace/src/workflows/package_optimizing/services/bin_usage_statistics_service.py:30-43 | once an order raises, the whole lookup raises that error |
| BinUsageStatistics.AnalyzeBinUsage | workspace/src/workflows/package_optimizing/services/bin_usage_statistics_service.py:46-105 | the loop over the summaries computes the usage table of the specification |
| BinUsageStatistics.AnalyzeSpec | workspace/src/workflows/package_optimizing/services/bin_usage_statistics_service.py:60-103 | the table is well formed; every url's usage count equals the number of summaries that name it, with skipped summaries counted for none; the urls are listed in the order first met; each url's details are the details of its summaries, in summary order |
| BinUsageStatistics.AddSummaryStep | workspace/src/workflows/package_optimizing/services/bin_usage_statistics_service.py:72-103 | a summary with a bin url adds one use to that url and appends its own detail to that url's details; the url joins the keys at the end when new; every other url keeps its count and details |
| BinUsageStatistics.SeenUrlsSpec | workspace/src/workflows/package_optimizing/services/bin_usage_statistics_service.py:72 | the urls in first-seen order are distinct and are exactly the urls some summary is counted under |
| BinUsageStatistics.DetailOf | workspace/src/workflows/package_optimizing/services/bin_usage_statistics_service.py:87-101 | a detail carries the summary's order id, and is enriched from the lookup iff that id is truthy and a key, with that order's index, product count and quantity |
| BinUsageStatistics.AddSummaryKeeps | workspace/src/workflows/package_optimizing/services/bin_usage_statistics_service.py:72-83 | a url whose stored length is truthy keeps its name, dimensions and volume when another summary is added |
| BinUsageStatistics.MeasurementsKept | workspace/src/workflows/package_optimizing/services/bin_usage_statistics_service.py:60-83 | once a url has a truthy stored length, its name, dimensions and volume are never overwritten by later summaries |
| BinUsageStatistics.SumActualTotals | workspace/src/workflows/package_optimizing/services/bin_usage_statistics_service.py:148-154 | the loop sums the actual product counts and quantities of the details that carry them |
| BinUsageStatistics.EnhanceSpec | workspace/src/workflows/package_optimizing/services/bin_usage_statistics_service.py:112-160 | the details come out sorted by (index missing, coalesced index), as a permutation of the input that keeps the input order among equal keys; the unique orders are the number of distinct non-`None` order ids; the products packed are the sum over the details, every products count converting with `int`; the actual totals are present iff the actual products counts sum to a positive number, and then are the two sums; name, usage and url are kept, and each measurement is kept when truthy, else `0.0` |
| BinUsageStatistics.ProductsPackedError | workspace/src/workflows/package_optimizing/services/bin_usage_statistics_service.py:133 | the products-packed sum raises iff some detail's products count does not convert with `int` |
| BinUsageStatistics.OrderIdsMember | workspace/src/workflows/package_optimizing/services/bin_usage_statistics_service.py:132 | an id counts as a unique order iff it is not `None` and some detail carries it |
| BinUsageStatistics.OrderIdsSize | workspace/src/workflows/package_optimizing/services/bin_usage_statistics_service.py:132 | there are no more unique orders than details |
| BinUsageStatistics.CreateEnhancedStatistics | workspace/src/workflows/package_optimizing/services/bin_usage_statistics_service.py:107-163 | the loop over the bins computes the enhanced list of the specification |
| BinUsageStatistics.EnhanceAllMembers | workspace/src/workflows/package_optimizing/services/bin_usage_statistics_service.py:112-160 | every enhanced entry is the enhancement of some bin of the table |
| BinUsageStatistics.EnhanceErrorSticks | workspace/src/workflows/package_optimizing/services/bin_usage_statistics_service.py:112-160 | once a bin raises, the whole enhancement raises that error |
| BinUsageStatistics.Perform | workspace/src/workflows/package_optimizing/services/bin_usage_statistics_service.py:14-24 | non-list inputs are treated as empty, then lookup, analysis and enhancement run in turn |
| BinUsageStatistics.StatisticsSpec | workspace/src/workflows/package_optimizing/services/bin_usage_statistics_service.py:107-163 | every url some summary is counted under appears exactly once, with the number of those summaries as its usage count and no other url appears; the list is most used first, and urls of equal usage keep the order in which the summaries first met them (the stable `sort(reverse=True)`) |
| BinUsageStatistics.TableStatistics | workspace/src/workflows/package_optimizing/services/bin_usage_statistics_service.py:107-163 | from a grouped table the final list holds one entry per url, counted as the summaries count it, most used first, ties in the table's url order |
| BinUsageCsvExport.BuildSizeIndex | workspace/src/workflows/package_optimizing/services/bin_usage_csv_export_service.py:24-30 | the loop computes the catalog index of the specification |
| BinUsageCsvExport.SizeIndexSpec | workspace/src/workflows/package_optimizing/services/bin_usage_csv_export_service.py:25-30 | a url is indexed iff some dict record carries it, stripped and non-empty, and it maps to the last such record |
| BinUsageCsvExport.FirstNonEmpty | workspace/src/workflows/package_optimizing/services/bin_usage_csv_export_service.py:101-108 | the loop computes the first non-blank value of the specification |
| BinUsageCsvExport.FirstNonEmptySpec | workspace/src/workflows/package_optimizing/services/bin_usage_csv_export_service.py:101-108 | the result is empty iff every value is `None` or blank after stripping; otherwise it is the stripped text of the first value that is neither |
| BinUsageCsvExport.FirstNonEmptyBlank | workspace/src/workflows/package_optimizing/services/bin_usage_csv_export_service.py:101-108 | `None`s and empty strings give an empty cell |
| BinUsageCsvExport.RoundHalfEven | workspace/src/workflows/package_optimizing/services/bin_usage_csv_export_service.py:116 | the rounded count of millionths lies within one half of the exact value |
| BinUsageCsvExport.FloatTextRoundTrip | workspace/src/workflows/package_optimizing/services/bin_usage_csv_export_service.py:111-119 | reading the rendered number back as a float gives the value rounded to six decimals |
| BinUsageCsvExport.FixedTextRoundTrip | workspace/src/workflows/package_optimizing/services/bin_usage_csv_export_service.py:116 | for any sign and count of millionths, the trimmed fixed-point text reads back as that many millionths |
| BinUsageCsvExport.TrimFixedText | workspace/src/workflows/package_optimizing/services/bin_usage_csv_export_service.py:116 | trimming `"{:.6f}"` leaves the sign, the integer digits, and a point with the decimals only when a non-zero decimal remains |
| BinUsageCsvExport.FloatTextNoTrailingZero | workspace/src/workflows/package_optimizing/services/bin_usage_csv_export_service.py:116 | a rendered number with a point never ends in `0` |
| BinUsageCsvExport.TrimZerosShape | workspace/src/workflows/package_optimizing/services/bin_usage_csv_export_service.py:116 | trimming removes only a tail of zeros and points, and never leaves a trailing point |
| BinUsageCsvExport.FixedSixOnePoint | workspace/src/workflows/package_optimizing/services/bin_usage_csv_export_service.py:116 | `"{:.6f}"` has exactly one point, seven characters from the end |
| BinUsageCsvExport.RowFixedColumns | workspace/src/workflows/package_optimizing/services/bin_usage_csv_export_service.py:57-96 | every row has fifteen cells, with the url second, the type `bin` fourth, and empty max weight and cost |
| BinUsageCsvExport.RowWithoutCatalog | workspace/src/workflows/package_optimizing/services/bin_usage_csv_export_service.py:59-78 | a row whose url is not in the catalog has every catalog-derived cell empty |
| BinUsageCsvExport.RowFromCatalog | workspace/src/workflows/package_optimizing/services/bin_usage_csv_export_service.py:59-96 | a row whose url is in the catalog is built from the last catalog record with that url |
| BinUsageCsvExport.RowsSpec | workspace/src/workflows/package_optimizing/services/bin_usage_csv_export_service.py:54-96 | there is one row per dict statistics record, and a row is present iff it is the row of some dict record |
| BinUsageCsvExport.RowsInOrder | workspace/src/workflows/package_optimizing/services/bin_usage_csv_export_service.py:54-96 | a record's row comes after the rows of the records before it and before the rows of the records after it |
| BinUsageCsvExport.QuoteRoundTrip | workspace/src/workflows/package_optimizing/services/bin_usage_csv_export_service.py:51-52 | a CSV reader recovers every field the writer quoted |
| BinUsageCsvExport.Perform | workspace/src/workflows/package_optimizing/services/bin_usage_csv_export_service.py:22-98 | the text is the header line followed by one line per row of the specification, or the `TypeError` raised by iterating a non-list input |
| BinUsageCsvExport.CsvStartsWithHeader | workspace/src/workflows/package_optimizing/services/bin_usage_csv_export_service.py:52 | the CSV text starts with the header record |
| DiscordFileUpload.BuildMultipart | workspace/src/workflows/package_optimizing/services/discord_file_upload_service.py:60-87 | the chunks the loops collect join into the body of the specification: text parts, file parts, the closing delimiter; the content type names the boundary |
| DiscordFileUpload.Perform | workspace/src/workflows/package_optimizing/services/discord_file_upload_service.py:18-51 | the body holds one `content` text part with the message (or empty) and one `file` part with the materialised payload; the report gives the filename and the body length |
| DiscordFileUpload.BodyFrame | workspace/src/workflows/package_optimizing/services/discord_file_upload_service.py:64-86 | every body ends with the closing delimiter and, with any text field, starts with the opening delimiter |
| DiscordFileUpload.EmptyBody | workspace/src/workflows/package_optimizing/services/discord_file_upload_service.py:84 | with no fields and no files, the body is the closing delimiter alone |
| DiscordFileUpload.TextPartsText | workspace/src/workflows/package_optimizing/services/discord_file_upload_service.py:64-68 | the text parts are the UTF-8 encoding of their text, and decode back to it |
| Utf8.DecodeEncode | workspace/src/workflows/package_optimizing/services/discord_file_upload_service.py:45 | decoding the UTF-8 encoding of a string gives the string back |
| Utf8.EncodeDecode | workspace/src/workflows/package_optimizing/services/discord_file_upload_service.py:45 | encoding what a valid byte string decodes to gives the byte string back |
| Utf8.EncodeAscii | workspace/src/workflows/package_optimizing/services/discord_file_upload_service.py:65-66 | an ASCII string encodes to one byte per character, of the same value |
| Utf8.EncodeAppend | workspace/src/workflows/package_optimizing/services/discord_file_upload_service.py:85 | encoding distributes over concatenation |
| BoxUrlTracker.CleanUrlSpec | workspace/src/workflows/crawl-best-carton/sub_workflow/services/box_url_tracker.py:95 | the url cut at `?` and at `#` is a prefix of the url that contains neither |
| BoxUrlTracker.BoxUrlShape | workspace/src/workflows/crawl-best-carton/sub_workflow/services/box_url_tracker.py:81-106 | an accepted url, cut at `?` and `#`, is some prefix, `/cardboard/box/`, digits and `.html` |
| BoxUrlTracker.BoxUrlIsAsWritten | workspace/src/workflows/crawl-best-carton/sub_workflow/services/box_url_tracker.py:98-105 | every url the corrected test accepts, the test as written accepts too |
| BoxUrlTracker.AsWrittenAcceptsDoubleSuffix | workspace/src/workflows/crawl-best-carton/sub_workflow/services/box_url_tracker.py:104 | `/cardboard/box/12.html.html` passes the test as written but not the corrected one |
| BoxUrlTracker.NormalizeSpec | workspace/src/workflows/crawl-best-carton/sub_workflow/services/box_url_tracker.py:108-131 | a normalised url starts with `/` and contains no `?` and no `#` |
| BoxUrlTracker.NormalizeKeepsPath | workspace/src/workflows/crawl-best-carton/sub_workflow/services/box_url_tracker.py:108-131 | a relative url that already starts with `/` and has no query or fragment is left unchanged |
| BoxUrlTracker.BoxUrlParser.HandleStartTag | workspace/src/workflows/crawl-best-carton/sub_workflow/services/box_url_tracker.py:71-79 | an anchor adds, in order, the normalised form of each href that `_is_box_url` as written accepts and that is not yet collected; other tags add nothing |
| BoxUrlTracker.BoxUrlParser.Feed | workspace/src/workflows/crawl-best-carton/sub_workflow/services/box_url_tracker.py:71-79 | feeding the events adds the candidates of all anchor hrefs under the test as written, each new one once |
| BoxUrlTracker.BoxCandidateSpec | workspace/src/workflows/crawl-best-carton/sub_workflow/services/box_url_tracker.py:74-79 | an href yields a url iff `_is_box_url` as written accepts it, and the url is its normalised form |
| BoxUrlTracker.BoxCandidatesMembers | workspace/src/workflows/crawl-best-carton/sub_workflow/services/box_url_tracker.py:74-79 | a url is a candidate iff it is the normalised form of some href the test as written accepts |
| BoxUrlTracker.BoxUrlsSpec | workspace/src/workflows/crawl-best-carton/sub_workflow/services/box_url_tracker.py:18-32 | the urls of a page have no duplicate, are exactly the normalised forms of the anchor hrefs the test as written accepts, and are paths without query or fragment |
| BoxUrlTracker.BoxUrlsKeepIntended | workspace/src/workflows/crawl-best-carton/sub_workflow/services/box_url_tracker.py:18-32 | every anchor href of the intended form `/cardboard/box/<digits>.html` is collected |
| BoxUrlTracker.DoubleSuffixPage | workspace/src/workflows/crawl-best-carton/sub_workflow/services/box_url_tracker.py:104 | a page whose only anchor is `/cardboard/box/12.html.html` yields exactly that url, which is not of the intended form |
| BoxUrlTracker.InsertSorted | workspace/src/workflows/crawl-best-carton/sub_workflow/services/box_url_tracker.py:41 | inserting a new url into a strictly sorted list keeps it strictly sorted and adds exactly that url |
| BoxUrlTracker.SortedUnique | workspace/src/workflows/crawl-best-carton/sub_workflow/services/box_url_tracker.py:41 | two strictly sorted lists with the same elements are equal, so the sorted listing is unique |
| BoxUrlTracker.BoxUrlTracker.constructor | workspace/src/workflows/crawl-best-carton/sub_workflow/services/box_url_tracker.py:13-16 | the tracker starts empty |
| BoxUrlTracker.BoxUrlTracker.Perform | workspace/src/workflows/crawl-best-carton/sub_workflow/services/box_url_tracker.py:18-32 | returns the page's box urls under the test as written and adds them to the tracked set |
| BoxUrlTracker.BoxUrlTracker.GetTrackedUrls | workspace/src/workflows/crawl-best-carton/sub_workflow/services/box_url_tracker.py:34-41 | the listing is strictly sorted and holds exactly the tracked urls |
| BoxUrlTracker.BoxUrlTracker.IsTracked | workspace/src/workflows/crawl-best-carton/sub_workflow/services/box_url_tracker.py:43-53 | true iff the url is tracked |
| BoxUrlTracker.BoxUrlTracker.ClearTracked | workspace/src/workflows/crawl-best-carton/sub_workflow/services/box_url_tracker.py:55-59 | the tracked set becomes empty |
| HtmlEvents.AnchorHrefsSpec | workspace/src/workflows/crawl-best-carton/sub_workflow/services/site_map_parser.py:41-45 | a value is among the collected hrefs iff some `a` start tag carries it as a non-empty `href` |
| SiteMapParser.HtmlUrlParser.constructor | workspace/src/workflows/crawl-best-carton/sub_workflow/services/site_map_parser.py:37-39 | the parser starts with no urls |
| SiteMapParser.HtmlUrlParser.HandleStartTag | workspace/src/workflows/crawl-best-carton/sub_workflow/services/site_map_parser.py:41-45 | an `a` tag appends its non-empty hrefs in attribute order; any other tag appends nothing |
| SiteMapParser.HtmlUrlParser.Feed | workspace/src/workflows/crawl-best-carton/sub_workflow/services/site_map_parser.py:41-45 | feeding the events appends the anchor hrefs in document order |
| SiteMapParser.Perform | workspace/src/workflows/crawl-best-carton/sub_workflow/services/site_map_parser.py:16-29 | the result is the anchor hrefs under `/category/`, in document order |
| SiteMapParser.CategoryUrlsSpec | workspace/src/workflows/crawl-best-carton/sub_workflow/services/site_map_parser.py:28 | every result starts with `/category/`, and such a url appears as often as anchors carry it, duplicates kept |
| SiteMapParser.CategoryUrlsMembers | workspace/src/workflows/crawl-best-carton/sub_workflow/services/site_map_parser.py:16-29 | a url is returned iff it lies under `/category/` and some anchor carries it |
| ProductParser.ProductHtmlParser.constructor | workspace/src/workflows/crawl-best-carton/services/product_parser.py:78-92 | all flags are down, no value is read, and the buffer is empty |
| ProductParser.ProductHtmlParser.HandleStartTag | workspace/src/workflows/crawl-best-carton/services/product_parser.py:94-98 | a `dt` or `dd` empties the text buffer; nothing else changes |
| ProductParser.ProductHtmlParser.HandleData | workspace/src/workflows/crawl-best-carton/services/product_parser.py:100-101 | the stripped text is appended to the buffer |
| ProductParser.ProductHtmlParser.HandleEndTag | workspace/src/workflows/crawl-best-carton/services/product_parser.py:103-147 | the end of a `dt` or `dd` is a step of the state machine |
| ProductParser.ProductHtmlParser.HandleDtEnd | workspace/src/workflows/crawl-best-carton/services/product_parser.py:104-118 | a `dt` end raises the flag of the label its text announces |
| ProductParser.ProductHtmlParser.HandleDdEnd | workspace/src/workflows/crawl-best-carton/services/product_parser.py:119-147 | a `dd` end stores the reading of the first raised flag and lowers that flag |
| ProductParser.ProductHtmlParser.Feed | workspace/src/workflows/crawl-best-carton/services/product_parser.py:94-147 | feeding the events runs the state machine over them in order |
| ProductParser.DtEndSpec | workspace/src/workflows/crawl-best-carton/services/product_parser.py:104-118 | a `dt` end keeps every value and the buffer; it raises the announced label's flag and keeps the others, and a text with no label lowers every flag |
| ProductParser.FirstLabelInNone | workspace/src/workflows/crawl-best-carton/services/product_parser.py:104-118 | no label is announced iff the text contains none of the four label texts |
| ProductParser.DdEndSpec | workspace/src/workflows/crawl-best-carton/services/product_parser.py:119-147 | a `dd` end empties the buffer, lowers exactly the first raised flag, and changes no other label's values |
| ProductParser.DdEndStores | workspace/src/workflows/crawl-best-carton/services/product_parser.py:119-147 | the handled label takes the reading when there is one and keeps its old values otherwise |
| ProductParser.ValuesOnlyAtDdEnd | workspace/src/workflows/crawl-best-carton/services/product_parser.py:94-147 | no event other than a `dd` end changes a parsed value |
| ProductParser.RunNonNegative | workspace/src/workflows/crawl-best-carton/services/product_parser.py:94-147 | whatever the page, no parsed value becomes negative |
| ProductParser.Perform | workspace/src/workflows/crawl-best-carton/services/product_parser.py:11-45 | the record is built from the state the page leaves, with unread values as 0 |
| ProductParser.ProductSpec | workspace/src/workflows/crawl-best-carton/services/product_parser.py:27-43 | every record has non-negative numbers, and an outer volume equal to the product of the outer dimensions |
| ProductParser.OuterVolume | workspace/src/workflows/crawl-best-carton/services/product_parser.py:27-29 | the outer volume is the product of the three dimensions, and it is positive iff all three are |
| ProductText.ExtractProductId | workspace/src/workflows/crawl-best-carton/services/product_parser.py:47-70 | empty for an empty url or one without `/box/`; when `/box/<digits>.html` occurs, the digits of its leftmost occurrence; otherwise, when `/box/<name>.html` occurs with a non-empty name free of `/`, the name of its leftmost occurrence, taken greedily up to the last `.html` before the next `/`; empty when neither occurs; any non-empty id occurs as `/box/<id>.html` in the url |
| ProductText.ProductIdOfBoxPath | workspace/src/workflows/crawl-best-carton/services/product_parser.py:47-70 | the id of `/cardboard/box/<digits>.html` is the digits |
| ProductText.ProductIdOfNamedBox | workspace/src/workflows/crawl-best-carton/services/product_parser.py:66-68 | `/box/x.html` has id `x`, by the fallback pattern |
| ProductText.ProductIdOfNestedBox | workspace/src/workflows/crawl-best-carton/services/product_parser.py:66-70 | `/box/a/b.html` matches neither pattern and has the empty id |
| ProductText.NumberAtSpec | workspace/src/workflows/crawl-best-carton/services/product_parser.py:165 | the number read at a digit is the longest `\d+(\.\d+)?` there |
| ProductText.Search | workspace/src/workflows/crawl-best-carton/services/product_parser.py:165-228 | the search finds the leftmost match from its start, or reports that there is none |
| ProductText.RemoveParensNoGroup | workspace/src/workflows/crawl-best-carton/services/product_parser.py:160 | after the groups are removed, no `(` is followed by a `)` |
| ProductText.RemoveParensChars | workspace/src/workflows/crawl-best-carton/services/product_parser.py:160 | removing the groups adds no character |
| ProductText.ParseDimensions | workspace/src/workflows/crawl-best-carton/services/product_parser.py:149-181 | any dimensions read are non-negative |
| ProductText.DimensionsNone | workspace/src/workflows/crawl-best-carton/services/product_parser.py:149-181 | no dimensions are read iff the cleaned text has no `a×b×c` |
| ProductText.DimensionsRoundTrip | workspace/src/workflows/crawl-best-carton/services/product_parser.py:149-181 | a cell written as `a×b×c(note) mm` reads back as a, b and c, each divided by 10 when over 100 |
| ProductText.DimensionsExample | workspace/src/workflows/crawl-best-carton/services/product_parser.py:149-181 | `636×206×212(深さ) mm` reads as 63.6 × 20.6 × 21.2 |
| ProductText.ParseVolume | workspace/src/workflows/crawl-best-carton/services/product_parser.py:183-205 | any volume read is non-negative |
| ProductText.VolumeNone | workspace/src/workflows/crawl-best-carton/services/product_parser.py:183-205 | no volume is read iff neither `<n> L` nor `<n> cm³` occurs |
| ProductText.VolumeLitres | workspace/src/workflows/crawl-best-carton/services/product_parser.py:183-205 | `<n> L` reads as n × 1000 cm³ |
| ProductText.VolumeCubicCentimetres | workspace/src/workflows/crawl-best-carton/services/product_parser.py:183-205 | `<n> cm³` reads as n cm³ |
| ProductText.ParseWeight | workspace/src/workflows/crawl-best-carton/services/product_parser.py:207-228 | any weight read is non-negative |
| ProductText.WeightNone | workspace/src/workflows/crawl-best-carton/services/product_parser.py:207-228 | no weight is read iff neither `<n> g` nor `<n> kg` occurs |
| ProductText.WeightGrams | workspace/src/workflows/crawl-best-carton/services/product_parser.py:207-228 | `<n> g` reads as n grams |
| ProductText.WeightKilograms | workspace/src/workflows/crawl-best-carton/services/product_parser.py:207-228 | `<n> kg` reads as n × 1000 grams |
| PyStrings.SplitJoin | workspace/src/workflows/crawl-best-carton/sub_workflow/services/box_url_tracker.py:95 | joining the pieces of `str.split` with the separator gives the string back |
| PyStrings.ReplaceSingleChar | workspace/src/tools/tag_workflows.py:89 | replacing one character by another is a per-character substitution |
| PyStrings.RStripCharSpec | workspace/src/workflows/package_optimizing/services/bin_usage_csv_export_service.py:116 | `rstrip(c)` removes exactly the trailing run of `c` |
| PyStrings.StripStartSpec | workspace/src/workflows/package_optimizing/services/bin_usage_csv_export_service.py:105 | stripping the start removes exactly the leading whitespace |
| PyStrings.StripEndSpec | workspace/src/workflows/package_optimizing/services/bin_usage_csv_export_service.py:105 | stripping the end removes exactly the trailing whitespace |
| PyStrings.NatToStringRoundTrip | workspace/src/workflows/package_optimizing/services/bin_usage_csv_export_service.py:95 | a number's decimal text is digits that denote the number |
| PyStrings.StrLtTotal | workspace/src/workflows/crawl-best-carton/sub_workflow/services/box_url_tracker.py:41 | string order is total, so `sorted` is well defined |
| PyStrings.StrLtTransitive | workspace/src/workflows/crawl-best-carton/sub_workflow/services/box_url_tracker.py:41 | string order is transitive |
| StableSort.SortSpec | workspace/src/workflows/package_optimizing/services/bin_usage_statistics_service.py:127-130 | the sort orders by key, permutes its input, and keeps the input order among equal keys |
| StableSort.InsertStable | workspace/src/workflows/package_optimizing/services/bin_usage_statistics_service.py:162 | one insertion puts the element first among those of its key and moves nothing else |
| TagWorkflows.BuildTargetToUuidMap | workspace/src/tools/tag_workflows.py:49-50 | raises `KeyError` iff some entry lacks `module` or `class`; otherwise maps each `module#class` to an id |
| TagWorkflows.BuildTargetSpec | workspace/src/tools/tag_workflows.py:49-50 | a target is a key iff some entry of the loaded mapping (one per id) has it, and it maps to the id of the last such entry |
| TagWorkflows.TargetIdsExist | workspace/src/tools/tag_workflows.py:49-50 | every id the target map gives is an existing id |
| TagWorkflows.TargetModule | workspace/src/tools/tag_workflows.py:111 | equal targets of modules without `#` have equal modules |
| TagWorkflows.ModulePathSpec | workspace/src/tools/tag_workflows.py:87-90 | the module path starts with `src.`, has no `/`, and is the relative path with `/` as `.` and the `.py` suffix dropped |
| TagWorkflows.ModulePathInverse | workspace/src/tools/tag_workflows.py:87-90 | for a `.py` path with no other `.`, turning the points of the module back into `/` and adding `.py` gives the path |
| TagWorkflows.ModulePathInjective | workspace/src/tools/tag_workflows.py:87-90 | two such paths with the same module path are the same path |
| TagWorkflows.ExtractPipelineClasses | workspace/src/tools/tag_workflows.py:99-108 | the loop keeps the attributes ending in `Pipeline` that are classes, in `dir` order, each paired with the module |
| TagWorkflows.PipelineClassesMembers | workspace/src/tools/tag_workflows.py:99-108 | an entry is produced iff it names the module and some class attribute ending in `Pipeline` |
| TagWorkflows.GetOrGenerateUuid | workspace/src/tools/tag_workflows.py:110-112 | the id is the known id of the target when there is a non-empty one, else the next drawn id |
| TagWorkflows.KnownTargetKeepsId | workspace/src/tools/tag_workflows.py:110-112 | a target of an existing entry gets the id of the last such entry, and no id is drawn |
| TagWorkflows.UnknownTargetFreshId | workspace/src/tools/tag_workflows.py:110-112 | an unknown target gets the next drawn id |
| TagWorkflows.KnownTargetModule | workspace/src/tools/tag_workflows.py:50-56 | when existing modules contain no `#`, a target that has an id belongs to an existing module |
| TagWorkflows.KnownTargetSkipped | workspace/src/tools/tag_workflows.py:70-82 | a class whose target already has an id is skipped by the module check, before any id is drawn, so reusing a known id never adds an entry |
| TagWorkflows.ExistingIdsOfMap | workspace/src/tools/tag_workflows.py:114-115 | an id is existing iff it is a key of the existing mapping |
| TagWorkflows.AsMapItems | workspace/src/tools/tag_workflows.py:44-47 | the loaded dict holds every listed id with its own entry |
| TagWorkflows.ExistingModulesOfMap | workspace/src/tools/tag_workflows.py:56 | the existing modules are exactly the modules of the dict's values |
| TagWorkflows.DiscoverWorkflows | workspace/src/tools/tag_workflows.py:52-85 | the nested loops over files and classes compute the discovery specification |
| TagWorkflows.ScanFile | workspace/src/tools/tag_workflows.py:58-83 | one file adds nothing when its import fails, else considers its pipeline classes in order |
| TagWorkflows.ConsiderWorkflow | workspace/src/tools/tag_workflows.py:69-83 | one class is skipped when its module is tagged or its id exists, else it is added under its id |
| TagWorkflows.DiscoverSpec | workspace/src/tools/tag_workflows.py:52-85 | no discovered module is an existing module, each module is discovered at most once, no discovered id is an existing id, and every discovered entry is a candidate class |
| TagWorkflows.DiscoverUsesFreshIds | workspace/src/tools/tag_workflows.py:78-82 | every discovered id is a freshly drawn id |
| TagWorkflows.DiscoverComplete | workspace/src/tools/tag_workflows.py:52-85 | under the stated hypotheses, every candidate class's module ends up existing or discovered |
| TagWorkflows.Merge | workspace/src/tools/tag_workflows.py:117-122 | the merged keys are the union; discovered entries win; all other entries are unchanged |
| TagWorkflows.MergeDisjoint | workspace/src/tools/tag_workflows.py:117-122 | with disjoint ids the merged size is the sum, and no existing entry changes |
| TagWorkflows.PersistSpec | workspace/src/tools/tag_workflows.py:117-122 | the merged mapping keeps every existing entry and adds every discovered one |
| TagWorkflows.Run | workspace/src/tools/tag_workflows.py:23-29 | raises `KeyError` when the target map does, otherwise gives the merge of the existing mapping with the discovery |

## Left out

- Floating point. Python floats are modelled as exact reals. A `Float` value carries its
  `repr` text, because the shortest round-trip rendering is not modelled.
- `"{:.6f}"` rounds the exact real half to even. The divisions and products of the unit
  conversions and volumes are exact. Binary floating-point error is not modelled.
- Case folding and digits are ASCII only: `lower`, `isdigit` and `\d` beyond ASCII are not
  modelled. Whitespace (`strip`, `\s`) is Python's full `str.isspace`.
- `float()` and `int()` of strings accept plain decimal literals only. Exponents, `inf`,
  `nan` and underscores are treated as rejected.
- py3dbp's packing algorithm is the `pack` parameter. Its internals, and the placement of
  items in the bin, are outside the core.
- `HTMLParser`'s tokenising of the page text into events is taken as given. Entity
  decoding and malformed markup are not modelled.
- `urlparse(...).path` is the `urlPath` parameter. URL parsing itself is a library call.
- `uuid.uuid4()` is the `uuid` parameter, the k-th id drawn. The random boundary token of
  the multipart body is the `token` parameter.
- `json.dumps` and `str` of a structured payload are given with the payload (`Structured`).
  JSON serialisation is a library call.
- Logging, the webhook post (`_post_bytes`), `DiscordConfig`, timeouts and the `Singleton`
  base class are not modelled. They are I/O or process-wide state.
- The tagger's file system is taken as input: `rglob`, `__import__`, `dir`, `isinstance(…,
  type)`, and reading and writing `workflow_ids.json`. The input lists the files found, in
  the order found, with the attributes of each imported module. `print` is not modelled.
- The tagger starts from the loaded mapping's items, one per id, which is what `json.loads`
  returns. Parsing the JSON text, including how `json.loads` resolves a member name written
  twice, is not modelled.
- `TagWorkflows.Merge`: the merged mapping is a Dafny map, so the key order of the JSON
  written is not modelled.
- TagWorkflows.DiscoverComplete: proved only under these hypotheses:
  - the target map comes from the existing entries;
  - drawn ids are distinct and never existing ids;
  - no module, existing or discovered, contains `#`.

  Without them, the source may skip a class whose id collides.
- BinPackaging.PerformStream takes the orders as a finite sequence. A non-iterable
  `orders_iter` (a `TypeError`), an exception raised by the iterator itself (outside the
  `try`), an unbounded stream, and the one extra order the loop pulls before it stops at the
  limit are not modelled.
- `PyValue.Repr` quotes every string in single quotes and escapes nothing, where Python's
  `repr` switches quotes and escapes special characters. It is reached when a list or dict
  `size_cm` or `title` becomes a bin or item name.
- BinUsageStatistics.LookupSpec, BinUsageStatistics.DetailOf, BinUsageStatistics.AnalyzeSpec
  and BinUsageStatistics.UniqueOrderIds compare dict and set keys as `Value`s, structurally.
  Python's key equality, where `1`, `1.0` and `True` are one key and two floats of equal value
  are one key whatever their text, is not modelled. So an order id `1` and a summary id `1.0`
  are not joined, the bins at urls that are equal numbers are not grouped, and such ids count
  as two unique orders. JSON ids and urls of one kind (strings, or ints) behave as in Python.
- `PyValue.Value`: a `Dict` whose entries repeat a key stands for no Python dict; the model's
  statements about such values say nothing about the source.
- `csv.writer` is modelled with its default dialect. Quoting applies to fields with comma,
  double quote, CR or LF, and lines end in CRLF. Other dialect options are not used by the
  source.

## Findings

| source | as written | input that shows it | evidently intended | confidence | as-written member | corrected member |
|---|---|---|---|---|---|---|
| workspace/src/workflows/crawl-best-carton/sub_workflow/services/box_url_tracker.py:104 | the file name passes when `filename.replace(".html", "")` is all digits, so every `.html` in it is removed | `/cardboard/box/12.html.html` is accepted as a box url | only `<digits>.html`, the pattern the class documents | high; not executed | BoxUrlTracker.IsBoxUrlAsWritten, the test the parser and `perform` apply (shown by BoxUrlTracker.AsWrittenAcceptsDoubleSuffix and BoxUrlTracker.DoubleSuffixPage) | BoxUrlTracker.IsBoxUrl (with BoxUrlTracker.BoxUrlShape, BoxUrlTracker.BoxUrlIsAsWritten and BoxUrlTracker.BoxUrlsKeepIntended) |

The parser and the tracker keep the behaviour of the code as written, so their contracts
describe what the service returns today. The corrected test is stated beside it: every url
it accepts is collected as well, and the double suffix is the difference.
