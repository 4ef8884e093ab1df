# Legacy world map and core utilities, modelled in Dafny

This project models the world map of the Legacy game engine and the core
utilities around it. It proves what those parts promise.

- **Map layer.** A `MapLayer` is one horizontal slice of the world. It is a
  dense, row-major grid of cell-type indices with bounds-checked reads and
  writes, structural equality and a text dump.
- **Map.** A `Map` holds the three extents a builder reports and one layer per
  unit of height. It hands out a layer by index and writes itself in a text
  save format: a `version` line, an `lwh` line, then a `layer i` section per
  layer.
- **Map builders.**
  - `MapBuilderStatic` is a fixed 40 x 40 x 10 empty map.
  - `MapBuilderSimple` fills a height field given per column.
  - `MapBuilderStream` parses the save format back, with `confirm_input`
    matching the literal words.
  - The save/load round trip is proved for every map whose cells fit the
    format.
- **Config.** Four typed tables of tagged values. `set<T>` refuses a tag
  another table holds. `get<T>` either throws or falls back on a default,
  inserting it in the non-const form. `init` scans the command line.
- **arg_parse.** The command-line parser and its actions, which write into a
  `Config`.
- **Path.** Filesystem paths: trailing-separator trimming, `basename`,
  `dirname`, joining, equality, and splitting a colon-separated search list.
- **DebugStreambuf.** A stream buffer that puts a `-L-` level prefix and an
  optional tag before each line it forwards.

Each source file is modelled in the form it has:

- Objects whose fields change become classes with `modifies` clauses. This
  covers the layer's cell vector, the input stream's cursor, the
  configuration's maps, a path's string and the stream buffer's state.
- Loops become methods with invariants.
- Each method is proved against a pure specification function, and the
  properties are proved about those functions.

Modules, one per file: `Wrappers` (Option/Result), `Numerals` (32-bit integer
widths, and decimal text as `<<` writes it and `>>`/`stoi` read it),
`InputStreams` (the part of `std::istream` the reader uses, with failbit
turned into exceptions), `MapLayers`, `Maps`, `MapBuilderStreams`,
`MapRoundTrip`, `MapBuilderStatics`, `MapBuilderSimples`, `Configs`,
`ArgParse`, `Paths`, `Loggers`.

Where the code and its descriptions disagree, the model follows the code:

- **`confirm_input`** does not skip whitespace before the literal. A space
  inside the literal runs a skipping sentry, and any other character must be
  the very next one (`legacy/world/mapbuilderstream.cpp:45-63`). Descriptions
  of the format that skip leading whitespace first are not followed.
- **Stale headers.** `legacy/world/map.h` declares `int` extents, both for
  `Map` (`legacy/world/map.h:67-78`) and for the `MapBuilder` interface
  (`legacy/world/map.h:48-56`). The builder definitions return `unsigned`
  (`legacy/world/mapbuilderstatic.cpp:29-30`), and so does the model.
  `legacy/world/maplayer.h` declares `unsigned` extents like its `.cpp`, but
  no `set_cell_index_at`. Neither header declares `layer(i)`. The `.cpp`
  definitions are modelled.
- **`Config::init`** is declared with an option set in `legacy/core/config.h`.
  The definition in `legacy/core/config.cpp` takes only the arguments and the
  filesystem, and that definition is modelled.
- **`dirname("")`**: the test in `legacy/core/tests/test_filesystem.cpp:143-153`
  expects `""`. The code reads before the start of the string there, so
  that expectation is not encoded (see Left out).
- **Positional arguments**: the scenarios in
  `legacy/core/tests/test_argparse.cpp:219-328` expect a bare argument to
  fill the option named "positional-arg", and `{"prog"}` alone to give
  INVALID_OPTION. `arg_parse` passes over every argument that is not an
  option (`legacy/core/argparse.cpp:257-261`). `ArgParse.PlainArgumentsIgnored`
  proves that as-written behaviour: such arguments store nothing and the
  result stays SUCCESS.
- **`num_args`**: `legacy/core/argparse.h:121-133` calls the count mandatory
  and reserves '*' and '+' as wildcards "up until the next option".
  `arg_parse` takes up to `num_args` following arguments, whatever they are,
  and stops early only at the end of the list
  (`legacy/core/argparse.cpp:238-244`). So '+' (43) takes up to 43
  arguments, options included, and fewer than `num_args` is not an error.
  `legacy/core/tests/test_argparse.cpp:291` relies on '+'. The model takes
  the count literally, as the code does.
- **`short_option`**: `legacy/core/argparse.h:114-118` says the letter is
  ignored unless the name is a long-form option. `match_option` compares
  it for every option, whatever its name (`legacy/core/argparse.cpp:168-176`),
  and so does the model.

Some definitions carry no contract of their own. The lemmas and methods in
the table state what they do, and each follows these lines:

- `Paths.Equal`, `Paths.NotEqual`: `legacy/core/filesystem.h:82-88`.
- `Paths.BasenameOf`: `legacy/core/filesystem.cpp:59-81`.
- `Paths.DirnameAsWritten`: `legacy/core/filesystem.cpp:84-98`, as written.
- `Paths.DirnameOf`: the intended `dirname`, the part before the rightmost
  separator that `legacy/core/tests/test_filesystem.cpp:61-66` expects.
- `ArgParse.IsOption`, `ArgParse.IsShortOption`:
  `legacy/core/argparse.cpp:139-156`.
- `ArgParse.Act`: the seven provided actions, `legacy/core/argparse.cpp:37-122`.
- `ArgParse.ParseFrom`, `ArgParse.Parse`: the loop of `arg_parse`,
  `legacy/core/argparse.cpp:208-266`.
- `Configs.ScanArgs`: the argument scan of `Config::init`,
  `legacy/core/config.cpp:285-302`. `Configs.AfterAfter` regroups two of
  its steps for the proof of the loop.
- `ArgParse.Stoi`: `std::stoi` as `store_int` calls it,
  `legacy/core/argparse.cpp:77`.
- `MapLayers.Field`, `MapLayers.RowText`, `MapLayers.GridText`: the text
  `operator<<` writes for a layer, `legacy/world/maplayer.cpp:68-80`.
- `Maps.HeaderText`, `Maps.SectionText`, `Maps.MapText`: the text
  `operator<<` writes for a map, `legacy/world/map.cpp:60-71`.
- `Loggers.Prefix`, `Loggers.Output`, `Loggers.InfoLines`: the prefix and
  the characters `overflow` writes, `legacy/core/logger.cpp:85-113`, and
  the line-by-line reference they are proved against.
- `Paths.Path.String`: `legacy/core/filesystem.cpp:53-57`.

## Model

| member | source | states |
|---|---|---|
| `Numerals.NatTextDigits` | legacy/world/map.cpp:64 | the decimal text written for an unsigned value is a non-empty run of digits whose value is that number |
| `Numerals.ScanIntText` | legacy/world/mapbuilderstream.cpp:125 | scanning the text `<<` writes for an int, followed by a non-digit or the end, yields a numeral of exactly that value ending right after the text |
| `Numerals.ScanNumeralStops` | legacy/world/mapbuilderstream.cpp:125 | a numeral is found exactly when a digit follows the optional sign, and it takes every digit there |
| `Numerals.ShortIntText` | legacy/world/maplayer.cpp:75 | an integer whose text has at most three characters lies in -99..999 |
| `Numerals.ScanNumeral` | legacy/world/mapbuilderstream.cpp:125 | a numeral found from p ends after p and inside the text |
| `InputStreams.SentryAt` | legacy/world/mapbuilderstream.cpp:52 | the skipping sentry, when it succeeds, stops inside the text on a position at or after the cursor with eofbit clear |
| `InputStreams.SentryStops` | legacy/world/mapbuilderstream.cpp:52 | the sentry succeeds iff eofbit is clear and a non-space follows; it stops at the first non-space, passing only whitespace |
| `InputStreams.GetAt` | legacy/world/mapbuilderstream.cpp:56-57 | `get(c)` succeeds iff eofbit is clear and a character remains, and then gives that character and advances by one |
| `InputStreams.IgnoreAt` | legacy/world/mapbuilderstream.cpp:80 | `ignore()` fails only when eofbit is set; it discards one character, or sets only eofbit at the end |
| `InputStreams.WordAt` | legacy/world/mapbuilderstream.cpp:79 | `>> string` succeeds iff the sentry does, and reads a non-empty word that ends the cursor after it, setting eofbit iff the text ends there |
| `InputStreams.WordStops` | legacy/world/mapbuilderstream.cpp:79 | the word read holds no whitespace and is followed by whitespace or the end |
| `InputStreams.NumeralAt` | legacy/world/mapbuilderstream.cpp:125 | a number read ends after the cursor and inside the text |
| `InputStreams.NumeralAfterSentry` | legacy/world/mapbuilderstream.cpp:125 | scanning a number is running the skipping sentry and then scanning a numeral where it stops |
| `InputStreams.IntAt` | legacy/world/mapbuilderstream.cpp:125 | `>> int` succeeds iff a numeral follows the whitespace and its value is in the range of `int`, and gives that value |
| `InputStreams.UnsignedAt` | legacy/world/mapbuilderstream.cpp:81 | `>> unsigned` succeeds iff a numeral follows whose magnitude fits 32 bits, and gives its value modulo 2^32 |
| `InputStreams.ConfirmCharAt` | legacy/world/mapbuilderstream.cpp:50-61 | a non-space literal character succeeds iff it is exactly the next character, and then advances by one; a space runs the sentry |
| `InputStreams.ConfirmCharsAt` | legacy/world/mapbuilderstream.cpp:48-63 | matching a literal never moves the cursor back, and after a non-empty literal eofbit is clear |
| `InputStreams.ConfirmAt` | legacy/world/mapbuilderstream.cpp:45-46 | on a stream that is not good, `confirm_input` changes nothing and succeeds |
| `InputStreams.ConfirmFailureSticks` | legacy/world/mapbuilderstream.cpp:58-60 | once a prefix of the literal fails to match, the whole literal fails |
| `InputStreams.ConfirmWord` | legacy/world/mapbuilderstream.cpp:54-61 | a literal without spaces is confirmed character by character by the same characters in the text |
| `InputStreams.SentryTo` | legacy/world/mapbuilderstream.cpp:52 | the skipping sentry passes a run of whitespace and stops on the non-space after it |
| `InputStreams.ConfirmWordSpace` | legacy/world/mapbuilderstream.cpp:48-63 | a literal word and a space are confirmed by exactly that word followed by whitespace, landing on the next non-space |
| `InputStreams.EmptyStreamFails` | legacy/tests/world/test_map_save_and_load.cpp:54-66 | on an empty text every extraction fails, and with eofbit clear so does confirming any literal that holds a non-space |
| `InputStreams.InputStream.constructor` | legacy/world/mapbuilderstream.cpp:71-76 | a new stream stands at the start of its text with eofbit clear |
| `InputStreams.InputStream.Get` | legacy/world/mapbuilderstream.cpp:57 | the method advances the stream exactly as `GetAt` says and returns its character |
| `InputStreams.InputStream.Sentry` | legacy/world/mapbuilderstream.cpp:52 | the method moves the cursor where `SentryAt` stops, or fails when it does |
| `InputStreams.InputStream.Ignore` | legacy/world/mapbuilderstream.cpp:80 | the method moves the cursor as `IgnoreAt` says, or fails when it does |
| `InputStreams.InputStream.ReadWord` | legacy/world/mapbuilderstream.cpp:79 | the method returns the word of `WordAt` and stands after it |
| `InputStreams.InputStream.ReadInt` | legacy/world/mapbuilderstream.cpp:119 | the method returns the value of `IntAt` and stands after the numeral |
| `InputStreams.InputStream.ReadUnsigned` | legacy/world/mapbuilderstream.cpp:81 | the method returns the value of `UnsignedAt` and stands after the numeral |
| `InputStreams.InputStream.ConfirmInput` | legacy/world/mapbuilderstream.cpp:42-65 | the character loop of `confirm_input` succeeds iff `ConfirmAt` does, and then stands where it says |
| `MapLayers.Offset` | legacy/world/maplayer.cpp:59-65 | out of range iff x >= length or y >= width; otherwise an offset below length*width that decodes back to x (remainder) and y (quotient) |
| `MapLayers.OffsetInjective` | legacy/world/maplayer.cpp:64 | distinct in-bounds coordinates get distinct offsets |
| `MapLayers.OffsetOnto` | legacy/world/maplayer.cpp:64 | every storage index is the offset of some in-bounds coordinate, so the layout is a bijection |
| `MapLayers.CellOfWithCell` | legacy/world/maplayer.cpp:54-56 | after writing v at (x, y) the cell there reads v and every other cell reads as before |
| `MapLayers.EmptyGridCells` | legacy/world/maplayer.cpp:29-34 | a new layer reads 0 at every in-bounds coordinate |
| `MapLayers.SameCellsSameGrid` | legacy/world/maplayer.cpp:83-102 | layers with the same extents that agree at every coordinate are the same layer |
| `MapLayers.CellCountAsWritten` | legacy/world/maplayer.cpp:33 | the cell count as written is at most length*width, and equal to it exactly when the product fits in 32 bits |
| `MapLayers.OffsetAsWritten` | legacy/world/maplayer.cpp:64 | the offset `y*length + x` as computed in `unsigned`: the true offset whenever that fits in 32 bits |
| `MapLayers.WrappedLayerOverruns` | legacy/world/maplayer.cpp:59-65 | when length*width exceeds UINT_MAX, the coordinate (UINT_MAX % length, UINT_MAX / length) is in bounds, and its offset as written is UINT_MAX, at or past the wrapped cell count (see Findings) |
| `MapLayers.SquareOf65536GetsNoCells` | legacy/world/maplayer.cpp:29-34 | a 65536 x 65536 layer gets 0 cells as written, while (0, 0) is in bounds with offset 0 |
| `MapLayers.NegativeCoordinateRejected` | legacy/world/tests/test_maplayer.cpp:48-65 | a coordinate of -1, passed as unsigned, is rejected in either position |
| `MapLayers.MapLayer.constructor` | legacy/world/maplayer.cpp:29-34 | a new layer has the given length and width and length*width cells, all 0 |
| `MapLayers.MapLayer.CellOffsetOf` | legacy/world/maplayer.cpp:59-65 | succeeds iff the coordinate is in bounds, with an offset inside the storage that decodes back to the coordinate |
| `MapLayers.MapLayer.CellIndexAt` | legacy/world/maplayer.cpp:49-51 | succeeds iff in bounds, and then returns the cell value at (x, y) |
| `MapLayers.MapLayer.SetCellIndexAt` | legacy/world/maplayer.cpp:54-56 | succeeds iff in bounds; then only cell (x, y) changes, to the new index; on failure nothing changes |
| `MapLayers.MapLayer.Equals` | legacy/world/maplayer.cpp:83-102 | true iff the lengths and widths match and every (x, y) holds the same index |
| `MapLayers.EqualsIsValueEquality` | legacy/world/maplayer.cpp:83-102 | layer equality as `operator==` decides it is equality of the layers' values |
| `MapLayers.MapLayer.Dump` | legacy/world/maplayer.cpp:68-80 | writes width lines, line y the row's fields in x order and then a newline |
| `MapLayers.MapLayer.DumpRow` | legacy/world/maplayer.cpp:73-76 | writes the cells of row y in x order, each right-aligned in a field of four |
| `MapLayers.NewLayerBag` | legacy/world/mapbuilderstream.cpp:115 | n copies of a new layer: n layers of the given extents, each with its own storage, all cells 0 |
| `Maps.Map.constructor` | legacy/world/map.cpp:33-39 | the map keeps the builder's length, width, height and layers as given |
| `Maps.Map.Layer` | legacy/world/map.cpp:42-57 | `layer(i)` fails with out_of_range iff i >= height, and otherwise is layer i itself |
| `Maps.SetCellThroughLayer` | legacy/world/map.cpp:42-48 | a write through `layer(i)` changes only cell (x, y) of layer i; the other layers and the extents stay the same, and a failed write changes nothing |
| `Maps.Map.Equals` | legacy/world/map.cpp:74-87 | true iff length, width and height match and layer i equals layer i for every i, that is iff the map values are equal |
| `Maps.Map.Dump` | legacy/world/map.cpp:60-71 | writes the version line, the extents line, then each layer's "layer i" line and rows, in order |
| `Maps.Map.DumpHeader` | legacy/world/map.cpp:63-64 | writes "version 20161108" and "lwh L W H", each ended by a newline |
| `Maps.Map.DumpSection` | legacy/world/map.cpp:67-68 | writes the line "layer i" followed by the dump of layer i |
| `MapBuilderStreams.HeaderAt` | legacy/world/mapbuilderstream.cpp:78-82 | a header read stays inside the text |
| `MapBuilderStreams.CellsAt` | legacy/world/mapbuilderstream.cpp:123-127 | reading n numbers gives exactly n values |
| `MapBuilderStreams.RowsAt` | legacy/world/mapbuilderstream.cpp:121-129 | reading k rows gives exactly k * length values |
| `MapBuilderStreams.SectionHeadAt` | legacy/world/mapbuilderstream.cpp:119-120 | a section's opening line read stays inside the text |
| `MapBuilderStreams.SectionAt` | legacy/world/mapbuilderstream.cpp:118-129 | a section read gives a layer of the given length and width |
| `MapBuilderStreams.SectionsAt` | legacy/world/mapbuilderstream.cpp:115-130 | reading k sections gives k layers, each of the given length and width |
| `MapBuilderStreams.MapAt` | legacy/tests/world/test_map_save_and_load.cpp:44-45 | a map read from a text has as many layers as its height, each well formed |
| `MapBuilderStreams.SectionsNext` | legacy/world/mapbuilderstream.cpp:116 | reading one more section extends the sections read so far, or fails |
| `MapBuilderStreams.RowsNext` | legacy/world/mapbuilderstream.cpp:121 | reading one more row and its ignored character extends the rows read so far, or fails |
| `MapBuilderStreams.CellsNext` | legacy/world/mapbuilderstream.cpp:123 | reading one more number extends the numbers read so far, or fails |
| `MapBuilderStreams.CellsFailureSticks` | legacy/world/mapbuilderstream.cpp:76 | once a number fails to read, reading more numbers fails too, since failbit throws |
| `MapBuilderStreams.RowsFailureSticks` | legacy/world/mapbuilderstream.cpp:76 | once a row fails to read, reading more rows fails too |
| `MapBuilderStreams.SectionsFailureSticks` | legacy/world/mapbuilderstream.cpp:76 | once a section fails to read, reading more sections fails too |
| `MapBuilderStreams.MapBuilderStream.FromHeader` | legacy/world/mapbuilderstream.cpp:71-83 | the builder keeps the stream and the three extents of the header |
| `MapBuilderStreams.MapBuilderStream.Open` | legacy/world/mapbuilderstream.cpp:71-109 | the constructor succeeds iff the header reads, and then `map_length`, `map_width` and `map_height` are the three numbers read |
| `MapBuilderStreams.MapBuilderStream.Layers` | legacy/world/mapbuilderstream.cpp:112-132 | `layers()` succeeds iff height sections read; then it returns height fresh layers of the header's extents, each holding the values read for it |
| `MapBuilderStreams.MapBuilderStream.ReadSections` | legacy/world/mapbuilderstream.cpp:116-130 | the i loop reads height sections into the layers, section i into layer i, and succeeds iff all height sections read, each layer then holding its section's values |
| `MapBuilderStreams.MapBuilderStream.ReadSectionOf` | legacy/world/mapbuilderstream.cpp:116-130 | one turn of the i loop reads section i into layer i, extending the sections read so far, or fails exactly when that section does not read |
| `MapBuilderStreams.MapBuilderStream.ReadSection` | legacy/world/mapbuilderstream.cpp:118-129 | one section read into a layer: succeeds iff the section reads, and then the layer holds its values |
| `MapBuilderStreams.MapBuilderStream.ReadSectionHead` | legacy/world/mapbuilderstream.cpp:119-120 | reads "layer ", an int that is not compared with anything, and one ignored character |
| `MapBuilderStreams.MapBuilderStream.ReadRows` | legacy/world/mapbuilderstream.cpp:121-129 | reads width rows, row after row, into the layer's storage in row-major order |
| `MapBuilderStreams.MapBuilderStream.ReadRowLine` | legacy/world/mapbuilderstream.cpp:123-128 | one row and the character ignored after it extend the rows read so far |
| `MapBuilderStreams.MapBuilderStream.ReadRow` | legacy/world/mapbuilderstream.cpp:123-127 | reads length numbers into row y, x ascending, and leaves the rows before it unchanged |
| `MapBuilderStreams.MapBuilderStream.ReadCell` | legacy/world/mapbuilderstream.cpp:125-126 | reads one int and stores it at (x, y), changing no other cell |
| `MapBuilderStreams.MapBuilderStream.ReadCellAfter` | legacy/world/mapbuilderstream.cpp:123-127 | one turn of the x loop stores the next number read after the cells of the row already read, or fails exactly when it does not read |
| `MapRoundTrip.SaveLoadRoundTrip` | legacy/tests/world/test_map_save_and_load.cpp:30-50 | reading back what `operator<<` wrote gives the same map, when every cell is in -99..999 and the extents are in range |
| `MapRoundTrip.EmptySaveFails` | legacy/tests/world/test_map_save_and_load.cpp:54-66 | building a map from an empty stream fails |
| `MapRoundTrip.WideCellsMerge` | legacy/world/maplayer.cpp:75 | two neighbouring cells of 1000 are written as "10001000" and do not read back as two numbers |
| `MapRoundTrip.HeaderOf65536` | legacy/world/map.cpp:63-64 | the header written for a 65536 x 65536 x 1 map is "version 20161108\nlwh 65536 65536 1\n" |
| `MapRoundTrip.WrappedExtentsRead` | legacy/world/mapbuilderstream.cpp:78-82 | a save whose extents are 65536 x 65536 x 1 passes the header, which reports exactly those extents and stands after it (see Findings) |
| `MapRoundTrip.ReadHeader` | legacy/world/mapbuilderstream.cpp:78-82 | the two header lines written for a map read back as its three extents, the stream standing after them |
| `MapRoundTrip.ReadVersionLine` | legacy/world/mapbuilderstream.cpp:79-80 | the version line passes the literal, the stamp read as a word, and the ignored newline |
| `MapRoundTrip.ReadExtentsLine` | legacy/world/mapbuilderstream.cpp:81-82 | the extents line reads back as the three unsigned numbers written |
| `MapRoundTrip.ReadSections` | legacy/world/mapbuilderstream.cpp:116-130 | the first k sections written read back as the first k layers |
| `MapRoundTrip.ReadSection` | legacy/world/mapbuilderstream.cpp:118-129 | one section, its opening line and its rows, reads back as the layer |
| `MapRoundTrip.ReadSectionHead` | legacy/world/mapbuilderstream.cpp:119-120 | the line "layer i" reads back when i fits in `int` |
| `MapRoundTrip.ReadRows` | legacy/world/mapbuilderstream.cpp:121-129 | the first k written rows read back as the cells of those rows |
| `MapRoundTrip.ReadRow` | legacy/world/mapbuilderstream.cpp:123-128 | a written row reads back as its cells, the stream standing on its newline |
| `MapRoundTrip.ReadRun` | legacy/world/mapbuilderstream.cpp:123-127 | the fields written for a run of short values read back as that run |
| `MapRoundTrip.ReadField` | legacy/world/mapbuilderstream.cpp:125 | one field of four characters for a short value reads back as that value, skipping its padding |
| `MapRoundTrip.RowTextIsFields` | legacy/world/maplayer.cpp:73-76 | a written row is the fields of its cells in x order |
| `MapRoundTrip.FieldShape` | legacy/world/maplayer.cpp:75 | the field written for a value in -99..999 is four characters, the first a space |
| `MapRoundTrip.IntTextShort` | legacy/world/maplayer.cpp:75 | a value in -99..999 is written in at most three characters |
| `MapRoundTrip.ReadIntText` | legacy/world/mapbuilderstream.cpp:119 | `>> int` reads back an int written with `<<` after whitespace |
| `MapRoundTrip.ReadNatText` | legacy/world/mapbuilderstream.cpp:81 | `>> unsigned` reads back an unsigned written with `<<` after whitespace |
| `MapBuilderStatics.StaticMap` | legacy/world/mapbuilderstatic.cpp:29-45 | the static map is 40 long, 40 wide and 10 high, and every layer is an empty 40 x 40 layer |
| `MapBuilderStatics.Layers` | legacy/world/mapbuilderstatic.cpp:47-52 | `layers()` gives 10 fresh 40 x 40 layers with every cell 0 |
| `MapBuilderStatics.Build` | legacy/world/map.cpp:33-39 | a map built from the static builder has the static map's value |
| `MapBuilderStatics.StaticMapSaves` | legacy/world/map.cpp:60-71 | the static map saves and reads back unchanged |
| `MapBuilderSimples.MapBuilderSimple.constructor` | legacy/world/mapbuildersimple.cpp:27-33 | the builder keeps its length, width, height and column heights as given |
| `MapBuilderSimples.MapBuilderSimple.SimpleMap` | legacy/world/mapbuildersimple.cpp:41-59 | `map_length`, `map_width` and `map_height` are the constructor's arguments, with one layer per unit of height |
| `MapBuilderSimples.MapBuilderSimple.SimpleLayer` | legacy/world/mapbuildersimple.cpp:73 | layer k of the height field has the builder's length and width |
| `MapBuilderSimples.MapBuilderSimple.SimpleLayerCell` | legacy/world/mapbuildersimple.cpp:74-84 | layer k holds 1 at (x, y) iff k is below the column's height, and 0 otherwise |
| `MapBuilderSimples.MapBuilderSimple.SolidColumnsArePrefixes` | legacy/world/mapbuildersimple.cpp:79-82 | every cell is 0 or 1, and a solid cell has solid cells in every layer below it |
| `MapBuilderSimples.MapBuilderSimple.FillColumn` | legacy/world/mapbuildersimple.cpp:79-82 | the h loop sets (x, y) to 1 in exactly the layers below the column's height |
| `MapBuilderSimples.MapBuilderSimple.Layers` | legacy/world/mapbuildersimple.cpp:62-87 | `layers()` gives height fresh layers of the builder's extents, each equal to the height-field layer |
| `MapBuilderSimples.MapBuilderSimple.Build` | legacy/world/map.cpp:33-39 | a map built from the simple builder has the simple map's value |
| `MapBuilderSimples.MapBuilderSimple.SimpleMapSaves` | legacy/world/mapbuildersimple.cpp:81 | only 1 is ever written, so a simple map of at most 2^31 layers saves and reads back unchanged |
| `Configs.Find` | legacy/core/config.cpp:106-107 | a tag is found in table k iff table k holds it, and what is found has k's type |
| `Configs.Put` | legacy/core/config.cpp:138 | writing a value puts it under its tag in its own table and changes no other entry |
| `Configs.Lookup` | legacy/core/config.cpp:96-100 | the throwing `get<T>(tag)` succeeds iff T's table holds the tag, and otherwise fails with out_of_range |
| `Configs.LookupOr` | legacy/core/config.cpp:103-112 | the defaulted `get<T>(tag, d)` gives the stored value when there is one, and d otherwise |
| `Configs.Inserted` | legacy/core/config.cpp:115-125 | the non-const defaulted get leaves the stored value, or d, under the tag, and changes nothing else |
| `Configs.Stored` | legacy/core/config.cpp:128-139 | `set<T>` fails with logic_error iff another table holds the tag; otherwise it stores the value in T's table only |
| `Configs.StoredKeepsExclusive` | legacy/core/config.cpp:128-139 | `set<T>` keeps every tag in at most one table |
| `Configs.InsertedCanBreakExclusive` | legacy/core/config.cpp:115-125 | the non-const defaulted get can put a tag into a second table |
| `Configs.InsertedThenFound` | legacy/core/config.cpp:115-125 | after the non-const defaulted get, the throwing get finds what it returned |
| `Configs.Config.constructor` | legacy/core/config.h:88-91 | a new configuration has four empty tables |
| `Configs.Config.Get` | legacy/core/config.cpp:96-100 | `get<T>(tag) const`: succeeds iff T's table holds the tag, giving that value; otherwise out_of_range |
| `Configs.Config.GetOr` | legacy/core/config.cpp:103-112 | `get<T>(tag, d) const` (the same for all four types): the stored value, or d when T's table lacks the tag; nothing changes |
| `Configs.Config.GetOrInsert` | legacy/core/config.cpp:115-125 | `get<T>(tag, d)` (the same for all four types): returns the stored value or d, and inserts d when the tag was absent |
| `Configs.Config.Set` | legacy/core/config.cpp:128-139 | `set<T>` (the same for all four types): refused with logic_error and no change when another table holds the tag; otherwise stored |
| `Configs.Config.Init` | legacy/core/config.cpp:279-318 | the argument scan of `init` then `set<StringList>("cli-args", ...)`, or the missing-argument error with nothing changed |
| `Configs.ScanArguments` | legacy/core/config.cpp:285-302 | the iterator loop of `init` computes the scan `ScanArgs` defines |
| `Configs.NonOptionsHaveNoDash` | legacy/core/config.cpp:294-301 | no argument starting with '-' is kept as a non-option, and every kept one is an argument |
| `Configs.PlainArgumentsAllKept` | legacy/core/config.cpp:298-301 | without arguments starting with '-', every argument is kept, in order |
| `Configs.ScanFailsOnlyAtEnd` | legacy/core/config.cpp:287-291 | the scan fails only when a configuration option is the last argument, naming it |
| `Configs.ConfigFileFollowsOption` | legacy/core/config.cpp:287-293 | a configuration file name found is the argument right after a "--config" or "-f" |
| `ArgParse.SpaceEnd` | legacy/core/argparse.cpp:77 | the leading whitespace `stoi` skips ends at the first non-space |
| `ArgParse.StoiOfIntText` | legacy/core/argparse.cpp:77 | `stoi` reads back the text of any int, after whitespace and before a non-digit |
| `ArgParse.StoiRejectsNonNumbers` | legacy/core/argparse.cpp:77-83 | any text in which no digit follows the leading whitespace and the optional sign does not convert |
| `ArgParse.StoreIntResults` | legacy/core/argparse.cpp:67-86 | `store_int` gives MISSING_ARG with no argument, TOO_MANY_ARGS with more than one and INVALID_ARG when the argument does not convert; it succeeds iff one argument converts and no other table holds the key, and changes nothing unless it succeeds |
| `ArgParse.StoreIntStores` | legacy/core/argparse.cpp:77-78 | a stored int is found again under its key |
| `ArgParse.CountIncrements` | legacy/core/argparse.cpp:54-64 | `count` with no argument stores the previous count, from 0, plus one |
| `ArgParse.FlagsTakeNoArguments` | legacy/core/argparse.cpp:103-122 | `store_true`, `store_false` and `count` refuse any argument with TOO_MANY_ARGS and change nothing |
| `ArgParse.FlagsStoreOneAndZero` | legacy/core/argparse.cpp:103-122 | `store_true` stores 1 and `store_false` stores 0 |
| `ArgParse.AppendExtends` | legacy/core/argparse.cpp:37-51 | `append` stores the list already there, or an empty one, followed by its arguments in order |
| `ArgParse.AppendClashLeavesDefault` | legacy/core/argparse.cpp:43-48 | `append` under a key another table holds fails with logic_error after inserting the default empty list, so a key that had no list ends up in two tables |
| `ArgParse.ConcatAppend` | legacy/core/argparse.cpp:95-96 | the concatenation `store_string` builds distributes over splitting its arguments |
| `ArgParse.StoreStringConcatenates` | legacy/core/argparse.cpp:89-100 | `store_string` with at least one argument and no clash succeeds and stores all its arguments concatenated in order |
| `ArgParse.Run` | legacy/core/argparse.cpp:246 | running an action on the configuration object ends as the action's specification says |
| `ArgParse.AppendAction` | legacy/core/argparse.cpp:37-51 | the `append` loop and store end as the specification of `append` says |
| `ArgParse.CountAction` | legacy/core/argparse.cpp:54-64 | `count` ends as its specification says |
| `ArgParse.StoreIntAction` | legacy/core/argparse.cpp:67-86 | `store_int` ends as its specification says, a type clash caught as INVALID_ARG |
| `ArgParse.StoreStringAction` | legacy/core/argparse.cpp:89-100 | the concatenation loop of `store_string` ends as its specification says |
| `ArgParse.StoreTrueAction` | legacy/core/argparse.cpp:103-111 | `store_true` ends as its specification says |
| `ArgParse.StoreFalseAction` | legacy/core/argparse.cpp:114-122 | `store_false` ends as its specification says |
| `ArgParse.FirstMatch` | legacy/core/argparse.cpp:165-189 | the index of the first option the argument names, by short letter or exact long name, or the size of the set when none does |
| `ArgParse.MatchOption` | legacy/core/argparse.cpp:165-189 | the search loop returns an index at most the set's size; the option there matches and none before it does |
| `ArgParse.MatchIsFirst` | legacy/core/argparse.cpp:165-189 | the result of the search is the one `FirstMatch` names |
| `ArgParse.ConfigKey` | legacy/core/argparse.cpp:191-203 | the configured key if non-empty; else the name without a leading "--" when longer than two; else the name |
| `ArgParse.LongNameKey` | legacy/core/argparse.cpp:198-201 | a long option "--k" without a configured key stores under k |
| `ArgParse.Taken` | legacy/core/argparse.cpp:239-245 | an option takes min(num_args, remaining) arguments, none when num_args is not positive |
| `ArgParse.InvalidStaysInvalid` | legacy/core/argparse.cpp:247-255 | once the result is INVALID_OPTION the parse never reports SUCCESS |
| `ArgParse.UnknownOptionInvalidates` | legacy/core/argparse.cpp:252-255 | an unknown option that the loop reaches as an option, not taken as an earlier option's argument, keeps the parse from reporting SUCCESS |
| `ArgParse.PlainArgumentsIgnored` | legacy/core/argparse.cpp:222-262 | from any point on, arguments that are not options are passed over and nothing is stored: the parse stays SUCCESS, or ends with SUCCESS_AND_EXIT when a help or version switch is among them |
| `ArgParse.ExitSwitchStopsParsing` | legacy/core/argparse.cpp:222-230 | a help or version switch right after the program name exits with SUCCESS_AND_EXIT, storing nothing, whatever follows |
| `ArgParse.OptionTakesFollowingArguments` | legacy/core/argparse.cpp:234-251 | a matched option hands its action the next arguments, options included; an action error ends the parse, otherwise parsing resumes after them |
| `ArgParse.TakeArguments` | legacy/core/argparse.cpp:238-245 | the loop collects exactly the next min(num_args, remaining) arguments, never past the end |
| `ArgParse.RunOption` | legacy/core/argparse.cpp:237-250 | one matched option of the loop advances past its arguments and leaves the parse where the specification goes on |
| `ArgParse.ArgParse` | legacy/core/argparse.cpp:208-266 | `arg_parse` computes the result and final tables `Parse` defines; an empty vector is INVALID_OPTION and the program name is skipped |
| `Paths.Trimmed` | legacy/core/filesystem.cpp:41-44 | exactly one trailing separator is dropped when the length exceeds 1; "/" and "" stay as they are |
| `Paths.TrimsOneSeparator` | legacy/core/filesystem.cpp:41-44 | "a//" keeps one separator, "//" becomes "/", and "/" and "" are unchanged |
| `Paths.TrimmedSettles` | legacy/core/filesystem.cpp:41-44 | trimming twice is trimming once, unless the path ends in two separators |
| `Paths.TrailingSeparatorIgnored` | legacy/core/filesystem.cpp:41-44 | "x/" and "x" give the same path |
| `Paths.ComponentStart` | legacy/core/filesystem.cpp:74-79 | the start of the component ending at e: right after the rightmost separator before e, or 0 |
| `Paths.BasenameIsLastComponent` | legacy/core/filesystem.cpp:59-81 | apart from "/", the basename holds no separator and is the last component, before any trailing separator |
| `Paths.BasenameOfJoin` | legacy/core/filesystem.cpp:59-81 | the basename of a + "/" + b, with or without a trailing separator, is b |
| `Paths.BasenameOfPlainName` | legacy/core/filesystem.cpp:59-81 | a path without separators is its own basename |
| `Paths.Path.Basename` | legacy/core/filesystem.cpp:59-81 | the index walk of `basename` returns "" for "", "/" for "/", and otherwise the last component |
| `Paths.Path.Dirname` | legacy/core/filesystem.cpp:84-98 | the index walk of `dirname` returns what the code as written gives (see Findings) |
| `Paths.DirnameAgreesFarFromStart` | legacy/core/filesystem.cpp:88-94 | when the rightmost separator is at index 2 or beyond, `dirname` as written is the intended one |
| `Paths.DirnameNearStartIsWrong` | legacy/core/filesystem.cpp:95-97 | as written, "a/b" has dirname "/" and "/a" has dirname ".", where "a" and "/" are meant |
| `Paths.DirnameOfJoin` | legacy/core/filesystem.cpp:84-98 | the intended dirname of a + "/" + b is a |
| `Paths.DirnameAndBasenameSplit` | legacy/core/filesystem.cpp:59-98 | for a path with no trailing separator whose last separator is not its first character, the intended dirname, a separator and the basename rebuild the path |
| `Paths.Joined` | legacy/core/filesystem.cpp:104 | a join is the left path, one separator, then the right path |
| `Paths.Path.constructor` | legacy/core/filesystem.cpp:36-45 | the stored path is the argument with one trailing separator trimmed |
| `Paths.Path.Copy` | legacy/core/filesystem.h:90-91 | the by-value operand is a copy with the same path |
| `Paths.Path.Append` | legacy/core/filesystem.cpp:101-106 | `/=` sets the path to the old path, a separator and the right-hand path |
| `Paths.EqualUpToTrailingSeparator` | legacy/core/filesystem.h:82-88 | paths made from "x/" and "x" are `==` and not `!=` |
| `Paths.Join` | legacy/core/filesystem.h:90-94 | `/` on two paths gives a new joined path and leaves the left operand alone |
| `Paths.JoinString` | legacy/core/filesystem.h:96-100 | `/` with a string trims the string's trailing separator before joining |
| `Paths.JoinDirAndFile` | legacy/core/tests/test_filesystem.cpp:156-170 | `Path("/dir/") / "filename"` is "/dir/filename" |
| `Paths.Segments` | legacy/core/filesystem.cpp:129-136 | the split yields non-empty pieces without colons |
| `Paths.SegmentsOfJoined` | legacy/core/filesystem.cpp:129-136 | splitting names joined by single colons gives the names back |
| `Paths.StrayColonsIgnored` | legacy/core/filesystem.cpp:118-136 | leading, doubled and trailing colons give no empty entries |
| `Paths.CreatePathList` | legacy/core/filesystem.cpp:108-139 | one path per run of non-colons, in order, each trimmed by the Path constructor; "" gives the empty list |
| `Paths.SkipColons` | legacy/core/filesystem.cpp:118-120 | skipping leading colons stops inside the string and does not change the split |
| `Paths.NextColon` | legacy/core/filesystem.cpp:129 | the end of the run of non-colons at i |
| `Loggers.Written` | legacy/core/logger.cpp:85-113 | a character always goes out last; inside a line it goes out alone; at a line start it follows "-", the level and "-" |
| `Loggers.Next` | legacy/core/logger.cpp:101-120 | after a character the line-start flag is set iff it was a newline; a prefix resets the level to INFO and clears the tag |
| `Loggers.NotEof` | legacy/core/logger.cpp:82 | `not_eof` is never EOF and leaves a character as it is |
| `Loggers.RestOfLine` | legacy/core/logger.cpp:113-120 | inside a line characters pass through unchanged and only a final newline re-arms the line start |
| `Loggers.OutputSplit` | legacy/core/logger.cpp:79-124 | writing a + b writes a, then writes b from the state a leaves |
| `Loggers.FirstLine` | legacy/core/logger.cpp:85-120 | a line written from a fresh buffer is "-I-" then the line, and after its newline the buffer is fresh again |
| `Loggers.PlainTextIsPrefixedPerLine` | legacy/core/logger.cpp:79-124 | from a fresh buffer every character is forwarded once, in order, and each line is headed by "-I-" |
| `Loggers.TagWrittenOnce` | legacy/core/logger.cpp:104-109 | a pending tag is written once, after the level and before a space, and then cleared |
| `Loggers.DebugStreambuf.constructor` | legacy/core/logger.cpp:70-76 | a new buffer is at a line start, level INFO, no timestamp, no tag, and has written nothing |
| `Loggers.DebugStreambuf.Overflow` | legacy/core/logger.cpp:79-124 | EOF writes nothing and returns `not_eof`; a character writes what `Written` says and moves to the `Next` state |
| `Loggers.DebugStreambuf.WritePrefix` | legacy/core/logger.cpp:87-109 | writes the timestamp when switched on, "-", the level, "-", and a pending tag with a space; then clears the line start, the level and the tag |
| `Loggers.DebugStreambuf.WriteAll` | legacy/core/logger.cpp:79-124 | writing a text character by character writes what `Output` says and leaves the `After` state |
| `Loggers.PutLevel` | legacy/core/logger.cpp:34-43 | `<< level` sets the pending level of a debug buffer only |
| `Loggers.PutTag` | legacy/core/logger.cpp:46-55 | `<< LogTagSetter` sets the pending tag of a debug buffer only |
| `Loggers.PutShowTime` | legacy/core/logger.cpp:58-67 | `<< ShowTimeSetter` sets the timestamp switch of a debug buffer only |

## Left out

- FastNoise is left out. `MapBuilderSimple` is given the column heights as a
  function `heightAt(x, y)` instead of computing them from a seed with
  floating-point arithmetic (`legacy/world/mapbuildersimple.cpp:65-71,78`).
- MapBuilderSimples.MapBuilderSimple.Layers: requires every column height to
  be at most `map_height()`. A taller column makes `layers[h]` index past the
  layer vector, which is undefined behaviour, not an error the code reports.
- MapLayers.MapLayer.constructor: allocates exactly `length*width` cells.
  The code computes that product in 32-bit `unsigned` and wraps, so extents
  whose product reaches 2^32 get too few cells while the bounds check still
  admits every coordinate (see Findings). The model follows the evidently
  intended count, so its offsets `y*length + x` stay below the cell count and
  never wrap.
- Maps.Map.constructor: requires the builder to supply exactly `height`
  layers, each with its own storage. All three builders do. The code itself
  checks nothing, and a builder that broke this would make `layer(i)` read
  past the vector.
- Stream machinery is left out: stream buffers, locales, `setw` state, and
  the distinction between `ios_base::failure` and other `runtime_error`s.
  Input is a string with a cursor and an eofbit. Every failure is one
  `Failure` value, because the stream throws on failbit.
- InputStreams.InputStream.ConfirmInput: the stream position after a failed
  read is not stated. The exception ends the read, so nothing observes it.
- Configs: the search-path code is left out, because it depends on
  `getcwd`, the environment and the filesystem. This covers
  `generate_config_paths`, `generate_data_paths`, the config-file probe in
  `init` and `open_data_file`. A double is a real number.
- Configs.Config.Init: the "unknown option" message written to `std::cerr`
  is not modelled. Only the skip is.
- ArgParse: the `std::clog` message for a non-option argument is not
  modelled. Custom `std::function` actions are not modelled either, only the
  seven provided actions. `version` is modelled as the action that returns
  INVALID_ARG; its result is ignored before SUCCESS_AND_EXIT.
- ArgParse.CountAction: does not model the `int` overflow of `count + 1` at
  INT_MAX. The count is an unbounded integer.
- Paths.Path.Dirname: the empty path is excluded. The index starts at
  `size() - 1`, which wraps, and the read that follows is out of bounds.
- Paths.CreatePathList: input made only of colons is excluded. The skip
  loop dereferences the end iterator there, which is undefined behaviour.
- The `FileInfo` and `FileSystem` interfaces have no logic and are left out.
- Loggers: the clock is left out. The timestamp text is a parameter, used
  only when the switch is on. `LogLevel` is declared in a header that is not
  part of this model. So is the declaration of `DebugStreambuf` itself, with
  `set_level`, `set_tag`, `set_show_time` and the `tag_` field. The
  manipulators are modelled as assigning the buffer's level, tag and time
  switch. `Info` (the character 'I') stands for
  `static_cast<char>(LogLevel::INFO)`, and a level is any character.
- Loggers: the real buffer's `sputc` result is not modelled, and the real
  buffer is the `out` string. The `dynamic_cast` on `rdbuf()` is modelled as
  a choice between a debug buffer and another kind.
- The RAII stream redirectors of `legacy/core/logger.h` are left out.
- MapRoundTrip.SaveLoadRoundTrip: holds only for maps whose cells are in
  -99..999. Wider cells fill their four-character fields, and neighbouring
  numbers run together, as `MapRoundTrip.WideCellsMerge` shows. The lemma
  also needs at most 2^31 layers, because the section number is written as
  `unsigned` and read back as `int`.

## Findings

| source | as written | input that shows it | evidently intended | confidence | as-written member | corrected member |
|---|---|---|---|---|---|---|
| legacy/core/filesystem.cpp:88-97 | the loop stops at index 2, then tests index 1 (index 0 for a one-character path) for the separator, so a separator at index 1 gives "/" and one at index 0 is missed | `Path("a/b").dirname()` gives "/" and `Path("/a").dirname()` gives "." | the part before the rightmost separator ("a"), "/" when that separator is the leading one, "." when there is none | not executed | `Paths.DirnameNearStartIsWrong` | `Paths.DirnameOfJoin` |
| legacy/world/maplayer.cpp:29-34 | `cells_(length*width)` multiplies two `unsigned`s, so the cell count is the product modulo 2^32; `cell_offset_of` checks only the coordinates and computes `y*length_ + x` in `unsigned` too, and the coordinate whose offset is UINT_MAX passes the check while that offset lies at or past the storage | the save "version 20161108\nlwh 65536 65536 1\nlayer 0\n 7" passes its header as a 65536 x 65536 x 1 map; the layer gets 0 cells, yet (0, 0) passes the bounds check and `set_cell_index_at(0, 0, 7)` writes past the empty vector | one cell per coordinate, `length*width` in full, so every admitted offset lies inside the storage | not executed | `MapLayers.WrappedLayerOverruns` | `MapLayers.MapLayer.CellOffsetOf` |
