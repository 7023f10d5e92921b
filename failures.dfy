/** The fatal conditions of the loader. Each stands for a call of the firmware
    library's fail(), which reports the source location and a message and halts;
    here it ends the computation with an error value instead. */
module Failures {

  datatype Failure =
    | InvalidSignature    // linux.c: the embedded image carries no "HdrS" signature
    | NotLoadedHigh       // linux.c: the kernel does not advertise LOADED_HIGH
    | NoRsdp              // linux.c: no usable ACPI 2.0 entry in the configuration table
    | TooManyDescriptors  // e820.c: the 128-slot region table is already full

  datatype Result<T> = Ok(value: T) | Fail(failure: Failure)

  datatype Option<T> = None | Some(value: T)
}
