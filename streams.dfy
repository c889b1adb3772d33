/**
  The process's standard output and standard error. Each stream is kept as the
  lines written to it, a line being the text streamed before one `std::endl`
  (it may itself hold an embedded "\n").
 */
module Streams {

  class Console {
    /** What has been written to `std::cout`. */
    var out: seq<string>
    /** What has been written to `std::cerr`. */
    var err: seq<string>

    constructor ()
      ensures out == [] && err == []
    {
      out, err := [], [];
    }

    /** `std::cout << line << std::endl`. */
    method WriteOut(line: string)
      modifies this
      ensures out == old(out) + [line] && err == old(err)
    {
      out := out + [line];
    }

    /** `std::cerr << line << std::endl`. */
    method WriteErr(line: string)
      modifies this
      ensures err == old(err) + [line] && out == old(out)
    {
      err := err + [line];
    }
  }
}
