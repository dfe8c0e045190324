/** The Node.js library calls the core makes, passed in as values so that the
    filtering and walking logic is verified for every behaviour they may have. */
module Host {

  datatype Host = Host(
    /** `path.normalize(p)` */
    normalize: string -> string,
    /** `path.relative(process.cwd(), p)`; the working directory is fixed for a run */
    relativeToCwd: string -> string,
    /** `path.basename(p)` */
    baseName: string -> string,
    /** `path.join(dir, name)` */
    join: (string, string) -> string,
    /** `minimatch(path, pattern, { dot: true })` */
    globDot: (string, string) -> bool,
    /** `minimatch(path, pattern, { matchBase: true })` */
    globMatchBase: (string, string) -> bool)
}
