/** Optional values, fallible results and the errors the detection pipeline reports. */
module Results {

  datatype Option<T> = None | Some(value: T)

  /** The errors a run can end with. Go's `fmt.Errorf("...: %w", err)` wrapping becomes `Wrapped`. */
  datatype Error =
    | OwnerRepoMissing                      // "owner/repo must be specified"
    | HostError(message: string)            // a failure reported by the hosting service
    | ConfigError(path: string)             // the rule configuration could not be loaded
    | ReadFileError(path: string)           // "failed to read file %s"
    | PatternCompileError(pattern: string)  // regexp.Compile rejected a rule's pattern
    | TemplateReadError(shown: string)      // "failed to read template %s"
    | Wrapped(context: string, inner: Error)

  datatype Result<T> = Ok(value: T) | Err(error: Error)
}
