/** Code points as the program stores them, in 16 bits. */
module CodePoints {
  const CODEPOINT_MAX := 0xFFFF
}
