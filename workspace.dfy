/**
 * What the two maintenance scripts see of the world: the working tree as a map from
 * path to text, the commands they run, and the exceptions that can escape a step.
 */
module Workspace {

  /**
   * The working tree: for every readable file, by path, the text `read_file` returns -- the
   * file decoded as UTF-8 with undecodable bytes dropped and line ends normalised to `\n`.
   * Both scripts compare replies against that text, not against the bytes on disk.
   */
  type FileSystem = map<string, string>

  /** One externally visible action of a script, in the order it happens. */
  datatype Effect =
    | Write(path: string, content: string)  // `write_file(path, content)`
    | Run(argv: seq<string>)                // `subprocess.run([...])` with an argument list
    | Shell(command: string)                // `subprocess.run(command, shell=True)`

  /** The exceptions the modelled steps can raise. */
  datatype Exception =
    | FileNotFound(path: string)  // `open(path)` of a path that is not in the working tree
    | ApiError                    // the OpenAI client call raised
    | IndexError                  // `lines[i]` on a list too short
}
