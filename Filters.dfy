/** `ObfuscableFilesFilter`: the predicate that decides whether an image may be renamed.
    Filters are built from a few primitive filters with `and` / `or`; the primitives other than
    `none()` and `only(file:)` live in code that is not part of this model and are therefore
    uninterpreted predicates collected in a `FilterEnv`. */
module Filters {

  /** A file URL; only compared for equality. */
  type Location(==, !new)

  /** Meaning of the primitive filters whose implementation is not part of this model. */
  datatype FilterEnv = FilterEnv(
    isDefaultObfuscable: Location -> bool,       // defaultObfuscableFilesFilter()
    isFramework: (string, Location) -> bool,     // isFramework(framework:)
    skipFramework: (string, Location) -> bool,   // skipFramework(framework:)
    skipAllFrameworks: Location -> bool,         // skipAllFrameworks()
    isInside: (Location, Location) -> bool)      // onlyFiles(in:): (directory, file)

  datatype Filter =
    | NoFiles                    // none(): nothing is obfuscable
    | DefaultFilter              // defaultObfuscableFilesFilter()
    | IsFramework(framework: string)
    | SkipFramework(framework: string)
    | SkipAllFrameworks
    | OnlyFile(file: Location)   // only(file:)
    | OnlyFilesIn(dir: Location) // onlyFiles(in:)
    | And(left: Filter, right: Filter)
    | Or(left: Filter, right: Filter)

  /** `filter.isObfuscable(url)`. */
  predicate IsObfuscable(f: Filter, env: FilterEnv, url: Location) {
    match f
    case NoFiles => false
    case DefaultFilter => env.isDefaultObfuscable(url)
    case IsFramework(name) => env.isFramework(name, url)
    case SkipFramework(name) => env.skipFramework(name, url)
    case SkipAllFrameworks => env.skipAllFrameworks(url)
    case OnlyFile(file) => url == file
    case OnlyFilesIn(dir) => env.isInside(dir, url)
    case And(l, r) => IsObfuscable(l, env, url) && IsObfuscable(r, env, url)
    case Or(l, r) => IsObfuscable(l, env, url) || IsObfuscable(r, env, url)
  }
}
