/**
 * What the kernel dispatchers branch on. `__AVX2__` and the compiler family
 * are fixed when a program is built; `__builtin_cpu_supports("avx2")` is a
 * runtime probe of the processor, passed in as a boolean.
 */
module Target {

  /** The build configuration: AVX2 code compiled in, and a GCC or Clang compiler (the only ones the probe is compiled for). */
  datatype Build = Build(avx2Compiled: bool, gccOrClang: bool)

  /** The kernel a dispatcher ran. */
  datatype Kernel = ScalarKernel | Avx2Kernel

  /** The AVX2 kernel runs exactly when it is compiled in, the compiler offers the probe and the probe succeeds. */
  predicate UsesAvx2(build: Build, cpuSupportsAvx2: bool) {
    build.avx2Compiled && build.gccOrClang && cpuSupportsAvx2
  }
}
