# File-free image reader, C++ array type and Gaussian operator parameters

This project models three small pieces of the Insight Toolkit and of its
C++ type-representation library, and proves properties of each.

- **`FileFreeImageIO`** (`file_free_image_io.dfy`) is the test-suite image
  reader whose "file" is only a name. A name such as
  `FileFreeIO::Size=64,32:Spacing=0.5,0.5:Origin=1,2:Direction=1,0,0,1`
  is accepted by `CanReadFile` when it starts with `FileFreeIO::`.
  `ReadImageInformation` searches the name for `Size=`, `Spacing=`,
  `Origin=` and `Direction=`. It splits each value on commas with
  `SplitString`, supplies zero origin, unit spacing and identity direction
  where a field is missing, and records the result through the image-IO
  setters. `Read` fills the pixel buffer with the byte 175. Writing is not
  supported.
  - The string searches (`find_first_of`, `find_first_not_of`, `npos`) and
    the regular expressions `^FileFreeIO::` and `Key=([^:$]*)` are modelled
    as functions on strings.
  - `SplitString` is a loop proved against a token function.
  - The reader is a class that holds the name and the recorded image
    information.
  - The value-parsing loops are methods proved against specification
    functions.
  - The Direction parse is modelled as written. It fills `t / 2` rows of
    `t / 2` tokens each, where `t` is the number of tokens.
  - `decimal.dfy` gives the decimal spelling of a natural number and the
    `atoi` reading of leading digits.
- **`CxxArrayType`** (`array_type.dfy`) models an array type, which has an
  element type with const and volatile flags and a length.
  - `SafeDownCast` converts a general type to an array type. It is checked
    by kind, and it throws `TypeDownCastException` when the type is not an
    array.
  - `GenerateName` produces the C++ spelling: the element's name, then the
    indirection, then `[length]`.
  - The element type's own name generator is code outside this model, so
    it is a function parameter.
- **`GaussianOperators`** (`gaussian_operator.dfy`) models the two
  parameters of the Gaussian neighborhood operator: the variance and the
  maximum error.
  - The operator is a class whose constructor, copy constructor,
    assignment and setters update those fields in place.
  - A value-level function is the reference definition of the setter's
    effect. Lemmas about sequences of calls pin down the small state
    machine that the maximum-error check creates.

`wrappers.dfy` holds the `Option`, `Result` and `Outcome` datatypes.

## Model

| member | source | states |
|---|---|---|
| FileFreeImageIO.FindFirstOf | Testing/Code/IO/itkFileFreeImageIO.cxx:211-212 | the result is `npos` or the first index at or after `pos` that holds a separator; no separator lies between `pos` and the result |
| FileFreeImageIO.FindFirstNotOf | Testing/Code/IO/itkFileFreeImageIO.cxx:208-214 | the result is `npos` or the first index at or after `pos` that holds a non-separator; only separators lie before it |
| FileFreeImageIO.FindFrom | Testing/Code/IO/itkFileFreeImageIO.cxx:40-41 | an unanchored search returns the leftmost occurrence of the pattern, or nothing exactly when the pattern occurs nowhere |
| FileFreeImageIO.CanReadFile | Testing/Code/IO/itkFileFreeImageIO.cxx:37-48 | true exactly when the name begins with `FileFreeIO::` |
| FileFreeImageIO.CanWriteFile | Testing/Code/IO/itkFileFreeImageIO.cxx:182-187 | false for every name |
| FileFreeImageIO.TakeValue | Testing/Code/IO/itkFileFreeImageIO.cxx:68 | `[^:$]*` takes the longest prefix with no `:` or `$`; the next character, if any, is one of them |
| FileFreeImageIO.FieldValueSpec | Testing/Code/IO/itkFileFreeImageIO.cxx:68-70 | a field is absent exactly when `Key=` occurs nowhere; otherwise its value is the maximal `:`/`$`-free run right after the first occurrence of `Key=` |
| FileFreeImageIO.SplitString | Testing/Code/IO/itkFileFreeImageIO.cxx:201-216 | the words appended to the vector are exactly the maximal separator-free runs of the text, in order |
| FileFreeImageIO.TokensProperties | Testing/Code/IO/itkFileFreeImageIO.cxx:207-215 | every word is non-empty and separator-free; joined, the words give the text with its separators removed; there are no words exactly when the text is all separators |
| FileFreeImageIO.SplitField | Testing/Code/IO/itkFileFreeImageIO.cxx:68-74 | a search reports whether `Key=` was found, and the vector then holds the comma-separated tokens of its value, or nothing |
| FileFreeImageIO.ParseSizes | Testing/Code/IO/itkFileFreeImageIO.cxx:75-78 | the size vector is `atoi` of each token, in order |
| FileFreeImageIO.ParseCoordinates | Testing/Code/IO/itkFileFreeImageIO.cxx:87-90 | the spacing (and origin) vector holds one `atof` entry per token, in order |
| FileFreeImageIO.ParseDirection | Testing/Code/IO/itkFileFreeImageIO.cxx:111-121 | with `h` = half the token count, rows `i < h` of the `d`-row matrix hold tokens `i*h .. i*h+h-1` in order; the other rows are empty |
| FileFreeImageIO.FillCoordinates | Testing/Code/IO/itkFileFreeImageIO.cxx:123-137 | an absent origin or spacing becomes one default per dimension |
| FileFreeImageIO.IdentityDirection | Testing/Code/IO/itkFileFreeImageIO.cxx:139-156 | an absent direction becomes the `d` by `d` identity matrix |
| FileFreeImageIO.FillDefaults | Testing/Code/IO/itkFileFreeImageIO.cxx:123-156 | each empty vector is replaced by its default (zero origin, unit spacing, identity direction); a non-empty vector is kept |
| FileFreeImageIO.ParseFields | Testing/Code/IO/itkFileFreeImageIO.cxx:62-156 | the four vectors equal the description's sizes, spacing, origin and direction, truncated to the number of dimensions |
| FileFreeImageIO.FileFreeImageIO.constructor | Testing/Code/IO/itkFileFreeImageIO.cxx:25-28 | a new reader (with its file name set) stores the name, and its image information is `Unread`, the base-class defaults |
| FileFreeImageIO.FileFreeImageIO.SetNumberOfDimensions | Testing/Code/IO/itkFileFreeImageIO.cxx:158 | the dimension count becomes `d`; every per-axis vector is resized to `d`, keeping its prefix |
| FileFreeImageIO.FileFreeImageIO.SetAxes | Testing/Code/IO/itkFileFreeImageIO.cxx:162-168 | after the per-axis setters, axis `i` holds size, spacing, origin and direction entry `i` for every `i < d`; nothing else changes |
| FileFreeImageIO.FileFreeImageIO.ReadImageInformation | Testing/Code/IO/itkFileFreeImageIO.cxx:53-172 | the recorded image information is the description of the file name; the name is unchanged |
| FileFreeImageIO.DimensionCount | Testing/Code/IO/itkFileFreeImageIO.cxx:68-79 | the dimension count is the number of Size tokens (0 without a Size field), and every per-axis vector has that length |
| FileFreeImageIO.DefaultsWhenNoValues | Testing/Code/IO/itkFileFreeImageIO.cxx:123-156 | a Spacing or Origin field that gives no values, whether absent or empty (`Origin=`, `Spacing=,`), gets unit spacing or zero origin on every axis; an absent Direction gets the identity |
| FileFreeImageIO.DirectionWithoutValues | Testing/Code/IO/itkFileFreeImageIO.cxx:111-142 | a Direction field that is present but gives fewer than two values reads no row and suppresses the identity: every axis gets an empty direction |
| FileFreeImageIO.DirectionIndexableExactly | Testing/Code/IO/itkFileFreeImageIO.cxx:111-121 | the Direction parse stays in range exactly when it has fewer than two values, or two to five values with half their number at most the dimension count; six or more values always go out of range |
| FileFreeImageIO.FullDirectionUndefined | Testing/Code/IO/itkFileFreeImageIO.cxx:113-115 | as written, a full matrix of `d * d` Direction values is read out of range in every dimension `d >= 3` |
| FileFreeImageIO.OneDimensionalDirectionDropped | Testing/Code/IO/itkFileFreeImageIO.cxx:113-115 | as written, a full one-dimensional Direction (one value) reads no row, so the direction stays `[[]]`, while the intended square reading gives the one-entry matrix |
| FileFreeImageIO.SquareDirectionReadsFullMatrix | Testing/Code/IO/itkFileFreeImageIO.cxx:112-121 | the intended reading (`d` rows of `d` values) reads a full `d * d` matrix in range for every `d`, with entry `(i, j)` being value `i * d + j` |
| FileFreeImageIO.TwoDimensionalDirectionAgrees | Testing/Code/IO/itkFileFreeImageIO.cxx:112-121 | in two dimensions the reading as written and the intended reading give the same matrix from four values |
| FileFreeImageIO.PixelInformationFixed | Testing/Code/IO/itkFileFreeImageIO.cxx:159-161 | whatever the name, the pixel is a scalar with one unsigned-char component |
| FileFreeImageIO.SizeOnlyNameRoundTrip | Testing/Code/IO/itkFileFreeImageIO.cxx:62-168 | a name `FileFreeIO::Size=` followed by comma-separated decimal dimensions is readable and describes exactly those dimensions, with unit spacing, zero origin and identity direction |
| FileFreeImageIO.FileFreeImageIO.Read | Testing/Code/IO/itkFileFreeImageIO.cxx:177-180 | the first GetImageSizeInBytes bytes of the buffer become 175; the rest are unchanged |
| FileFreeImageIO.FileFreeImageIO.WriteImageInformation | Testing/Code/IO/itkFileFreeImageIO.cxx:189-193 | writing the information changes nothing |
| FileFreeImageIO.FileFreeImageIO.Write | Testing/Code/IO/itkFileFreeImageIO.cxx:195-199 | writing the pixels changes nothing |
| Decimal.AtoiDecimal | Testing/Code/IO/itkFileFreeImageIO.cxx:77 | `atoi` reads back the decimal spelling of every natural number, whatever follows it as long as that does not start with a digit |
| CxxArrayType.NewArrayType | Utilities/Cable/CxxTypes/cxxArrayType.cxx:104-109 | the constructor stores the element type and length unchanged |
| CxxArrayType.GetRepresentationType | Utilities/Cable/CxxTypes/cxxArrayType.cxx:52-57 | the kind tag is `ArrayType_id` exactly for array types |
| CxxArrayType.SafeDownCast | Utilities/Cable/CxxTypes/cxxArrayType.cxx:65-83 | the cast succeeds exactly when the pointer is non-null and the type's kind is `ArrayType_id`, and returns that same array; otherwise it throws `TypeDownCastException` carrying the argument and `ArrayType_id` |
| CxxArrayType.GenerateName | Utilities/Cable/CxxTypes/cxxArrayType.cxx:86-98 | the spelling starts with the element's plain spelling followed by the indirection, and ends with `[` + decimal length + `]` |
| CxxArrayType.LengthRoundTrip | Utilities/Cable/CxxTypes/cxxArrayType.cxx:89-97 | the digits between the last `[` and the final `]` of the spelling give back the array's length |
| CxxArrayType.IndirectionVerbatim | Utilities/Cable/CxxTypes/cxxArrayType.cxx:92-97 | the spelling with an indirection is the spelling without one, with the indirection inserted verbatim (no parentheses) just before the `[` |
| CxxArrayType.ElementSpelledPlain | Utilities/Cable/CxxTypes/cxxArrayType.cxx:97 | the element is always spelled with empty indirection and the given const/volatile flags: two element namers that agree there give the same array spelling |
| CxxArrayType.PointerToArrayAmbiguous | Utilities/Cable/CxxTypes/cxxArrayType.cxx:92-97 | as written, a pointer to an array of ten `int` and an array of ten `int*` are both spelled `int*[10]` |
| CxxArrayType.GenerateNameParenthesised | Utilities/Cable/CxxTypes/cxxArrayType.cxx:92-97 | the intended spelling wraps a non-empty indirection in parentheses; with an empty one it agrees with the spelling as written |
| CxxArrayType.ParenthesisedDistinguishes | Utilities/Cable/CxxTypes/cxxArrayType.cxx:92-97 | with parentheses, a spelling with an indirection never equals the spelling of an array whose element spelling does not end in `)` |
| GaussianOperators.GaussianOperator.constructor | Code/Common/itkGaussianOperator.h:101 | a new operator has variance 1 and maximum error 0.01 |
| GaussianOperators.GaussianOperator.Copy | Code/Common/itkGaussianOperator.h:106-111 | the copy has the variance and maximum error of the original |
| GaussianOperators.GaussianOperator.Assign | Code/Common/itkGaussianOperator.h:116-122 | assignment copies both parameters and returns the assigned operator itself |
| GaussianOperators.GaussianOperator.SetVariance | Code/Common/itkGaussianOperator.h:127-128 | the variance is stored unchecked and GetVariance returns it; the maximum error is kept |
| GaussianOperators.GaussianOperator.GetVariance | Code/Common/itkGaussianOperator.h:149-150 | returns the stored variance |
| GaussianOperators.GaussianOperator.GetMaximumError | Code/Common/itkGaussianOperator.h:158-159 | returns the stored maximum error |
| GaussianOperators.GaussianOperator.SetMaximumError | Code/Common/itkGaussianOperator.h:136-144 | throws exactly when the stored maximum error is not strictly between 0 and 1, changing nothing; otherwise stores the argument unchecked (over reals, NaN not modelled) |
| GaussianOperators.TrySetMaximumError | Code/Common/itkGaussianOperator.h:136-144 | fails exactly when the stored value is out of range; on success the argument is stored and the variance kept (over reals, NaN not modelled) |
| GaussianOperators.FirstCallSucceeds | Code/Common/itkGaussianOperator.h:101-143 | from the defaults, the first maximum-error call succeeds and stores its argument, whatever it is |
| GaussianOperators.StuckOutOfRange | Code/Common/itkGaussianOperator.h:138-143 | once an out-of-range value is stored, every later call throws and the state never changes (over reals, NaN not modelled) |
| GaussianOperators.LastCallStays | Code/Common/itkGaussianOperator.h:138-143 | from an in-range state, if every argument but the last is in range, then the last argument is the one stored, in range or not |
| GaussianOperators.ValidValueRejected | Code/Common/itkGaussianOperator.h:138 | as written, setting 5 and then 0.5 from the defaults leaves 5 stored: the out-of-range value is accepted and the valid one rejected |
| GaussianOperators.TrySetMaximumErrorChecked | Code/Common/itkGaussianOperator.h:136-144 | the intended setter fails exactly when the argument is out of range and otherwise stores it |
| GaussianOperators.ReplayCheckedKeepsRange | Code/Common/itkGaussianOperator.h:136-144 | with the intended check, the stored maximum error stays in range through any sequence of calls, and is the starting value or one of the in-range arguments |

## Left out

- `atof` is not modelled. A parsed spacing, origin or direction entry keeps its token (`Parsed(token)`), and only the defaults the reader supplies are numbers. Floating point is out of scope.
- Decimal.Atoi reads only leading decimal digits. A sign, leading white space, and overflow of `int` and of the `unsigned int` size vector are not modelled.
- FileFreeImageIO.FileFreeImageIO.ReadImageInformation requires `WellDefined`. On other names the source indexes a `std::vector` out of range, which is undefined behaviour. That happens with a Spacing or Origin field that gives some values but fewer than there are sizes. It also happens with a Direction field of `t` values when `t >= 2` and either `t / 2` exceeds the dimension count or `t >= 6` (DirectionIndexableExactly). Fewer Direction values never cause it. So a full Direction matrix is undefined behaviour in three and more dimensions (FullDirectionUndefined), and the model describes no such name.
- FileFreeImageIO.FileFreeImageIO.constructor: `Unread` stands for the defaults the image-IO base class constructor sets. That constructor is not part of this model: no dimensions, one component, unknown pixel and component type.
- FileFreeImageIO.FileFreeImageIO.SetNumberOfDimensions: the resizing belongs to the image-IO base class, which is not part of this model. Keeping the prefix and padding with 0 sizes, unit spacing, zero origin and empty direction rows is a modelling choice. It does not affect ReadImageInformation, whose per-axis loop overwrites all `d` entries.
- FileFreeImageIO.FileFreeImageIO.Read requires an unsigned-char component type and a buffer of at least GetImageSizeInBytes bytes. The reader only ever records unsigned char; the component-size table of the image-IO base class is not part of this model.
- The image-IO base class is not part of this model. Its setters are modelled as updates of the `ImageInformation` record. GetImageSizeInBytes is the product of the dimensions times the number of components.
- `npos` is modelled for a 64-bit `size_t`. The search functions require the string to be shorter than `npos`.
- Only the regular expressions this reader uses are modelled (`^FileFreeIO::` and `Key=([^:$]*)`), not the regular-expression engine.
- The console output of the reader and of `PrintSelf` is left out.
- CxxArrayType.SafeDownCast: both overloads are one function. The const and non-const pointers differ only in C++ const-ness, which the model does not track. `dynamic_cast` is modelled as a test of the type's kind.
- CxxArrayType.GenerateName takes the element type's name generator as a parameter. That generator belongs to the qualified-type class, which is not part of this model. The `strstream` buffer that formatting the length leaves allocated is not modelled.
- CxxArrayType.GenerateName: its own contract states only the prefix (element spelling, then indirection) and the suffix (`[` + length + `]`). The exact composition follows from IndirectionVerbatim, ElementSpelledPlain and LengthRoundTrip.
- The Gaussian operator's parameters are `float` in the source and `real` here. Rounding, and the fact that 0.01 is not exact in `float`, are not modelled.
- GaussianOperators.GaussianOperator.SetMaximumError: NaN is not modelled. A stored NaN passes the test at Code/Common/itkGaussianOperator.h:138, because both comparisons are false, so the setter then stores the next argument. The contract (throws exactly when the stored value is not strictly between 0 and 1) holds only for non-NaN values. Infinities behave like out-of-range reals.
- GaussianOperators.StuckOutOfRange: holds only when no NaN is involved; a stored NaN does not block later calls in the source (see the line above).
- GaussianOperators.TrySetMaximumError: like the method it models, states the test at line 138 over reals only; NaN is not modelled.
- The copy constructor and assignment also copy the neighborhood-operator base class; that base class is not part of this model.
- The Gaussian coefficient generation, the modified Bessel functions and the filling of the operator's buffer are float numerics whose bodies are not shown, and are left out.

## Findings

| source | as written | input that shows it | evidently intended | confidence | as-written member | corrected member |
|---|---|---|---|---|---|---|
| Code/Common/itkGaussianOperator.h:138 | SetMaximumError tests the stored maximum error, not its argument | from the defaults, SetMaximumError(5) succeeds, then SetMaximumError(0.5) throws and 5 stays stored | the argument is checked to lie strictly between 0 and 1 | not executed | GaussianOperators.ValidValueRejected | GaussianOperators.ReplayCheckedKeepsRange |
| Testing/Code/IO/itkFileFreeImageIO.cxx:113-115 | the Direction parse reads `t / 2` rows of `t / 2` values, half the number of values where the side of the matrix is meant | a 3-D name with a full 9-value Direction: 4 rows of 4 values read value 15 of 9 and row 3 of a 3-row vector, out of range; a 1-D name with its 1-value Direction reads 0 rows and gets the direction `[[]]` instead of `[[1]]` (OneDimensionalDirectionDropped) | `d` rows of `d` values, the side being the number of dimensions | not executed | FileFreeImageIO.FullDirectionUndefined | FileFreeImageIO.SquareDirectionReadsFullMatrix |
| Utilities/Cable/CxxTypes/cxxArrayType.cxx:97 | GenerateName appends the bare indirection; the parenthesised form built at lines 93-96 is unused | element `int`, length 10, indirection `*` gives `int*[10]`, the spelling of an array of ten `int*` | `int(*)[10]`, with the indirection in parentheses | not executed | CxxArrayType.PointerToArrayAmbiguous | CxxArrayType.ParenthesisedDistinguishes |
